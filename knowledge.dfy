/**
 * The knowledge base the server loads at start-up (read-only afterwards), the
 * variation picker `getRandomVariation`, and `buildSearchIndex`, the list of
 * entries handed to the fuzzy search library.
 */
module KnowledgeBase {
  import opened Wrappers
  import opened Text
  import opened ProfileData
  import opened Fuzzy

  /** A response: one string, or a list of equivalent phrasings. */
  datatype Variations = One(text: string) | Many(options: seq<string>)

  /**
   * A personal fact: a string, a list (each item as its `JSON.stringify` text), or any
   * other value, which the search index skips.
   */
  datatype PersonalValue = PText(text: string) | PList(items: seq<string>) | POther

  /** An education record; each field is the text a template literal prints for it. */
  datatype EduRecord = EduRecord(level: Option<string>, cgpa: Option<string>, percentage: Option<string>)

  /** The `social` section: the handles of each profile and, optionally, stored LinkedIn data. */
  datatype Social = Social(github: string, leetcode: string, medium: string, linkedin: string,
                           linkedinData: Option<LinkedInData>)

  /**
   * The sections the core reads. Object sections keep their keys in insertion order.
   * `personalEducation` stands for `personal.education` as the `cgpa` reply reads it,
   * a list of education records; `personal` holds the facts as the search index reads
   * them. The model keeps the two views side by side and does not tie one to the other.
   */
  datatype KB = KB(
    responses: seq<(string, Variations)>,
    personal: seq<(string, PersonalValue)>,
    social: Social,
    education: Option<seq<EduRecord>>,
    personalEducation: Option<seq<EduRecord>>)

  /** `KB.responses[key]`: the first entry with that key, if any. */
  function Lookup(responses: seq<(string, Variations)>, key: string): (r: Option<Variations>)
    ensures r.Some? <==> exists i :: 0 <= i < |responses| && responses[i].0 == key
    ensures r.Some? ==> exists i :: 0 <= i < |responses| && responses[i] == (key, r.value)
                                    && forall j :: 0 <= j < i ==> responses[j].0 != key
  {
    if responses == [] then None
    else if responses[0].0 == key then Some(responses[0].1)
    else
      var r := Lookup(responses[1..], key);
      assert r.Some? ==> exists i :: 0 <= i < |responses| && responses[i] == (key, r.value)
                                     && forall j :: 0 <= j < i ==> responses[j].0 != key by {
        if r.Some? {
          var i :| 0 <= i < |responses[1..]| && responses[1..][i] == (key, r.value)
                   && forall j :: 0 <= j < i ==> responses[1..][j].0 != key;
          assert responses[i + 1] == responses[1..][i];
          forall j | 0 <= j < i + 1 ensures responses[j].0 != key {
            if j > 0 { assert responses[j] == responses[1..][j - 1]; }
          }
        }
      }
      assert r.Some? <==> exists i :: 0 <= i < |responses| && responses[i].0 == key by {
        if exists i :: 0 <= i < |responses| && responses[i].0 == key {
          var i :| 0 <= i < |responses| && responses[i].0 == key;
          assert responses[1..][i - 1] == responses[i];
        }
        if r.Some? {
          var i :| 0 <= i < |responses[1..]| && responses[1..][i].0 == key;
          assert responses[i + 1] == responses[1..][i];
        }
      }
      r
  }

  /**
   * `getRandomVariation`: a list yields its element at a random index below its
   * length, here `draw % length` (every index is reachable); an empty list yields
   * `undefined`, as does a missing response; a single string is returned as is.
   */
  function PickVariation(v: Option<Variations>, draw: nat): (r: Option<string>)
    ensures v.None? ==> r.None?
    ensures v.Some? && v.value.One? ==> r == Some(v.value.text)
    ensures v.Some? && v.value.Many? ==> (r.Some? <==> v.value.options != [])
    ensures v.Some? && v.value.Many? && r.Some? ==> r.value in v.value.options
  {
    match v
    case None => None
    case Some(One(s)) => Some(s)
    case Some(Many(xs)) => if xs == [] then None else Some(xs[draw % |xs|])
  }

  /** Every phrasing of a non-empty list can be drawn. */
  lemma EveryVariationReachable(xs: seq<string>, i: nat)
    requires i < |xs|
    ensures PickVariation(Some(Many(xs)), i) == Some(xs[i])
  {
  }

  /** `getResp(key)`: a variation of the response stored under `key`. */
  function GetResp(kb: KB, key: string, draw: nat): Option<string> {
    PickVariation(Lookup(kb.responses, key), draw)
  }

  /** What string concatenation prints for a value that may be `undefined`. */
  function Shown(v: Option<string>): string {
    match v
    case Some(s) => s
    case None => "undefined"
  }

  // ----- The search index -----

  /** `key.split('_').join(' ')`: every underscore becomes a space. */
  function KeyWords(key: string): (r: string)
    ensures |r| == |key|
    ensures forall i :: 0 <= i < |key| ==> r[i] == (if key[i] == '_' then ' ' else key[i])
  {
    seq(|key|, i requires 0 <= i < |key| => if key[i] == '_' then ' ' else key[i])
  }

  /** The entries of one response: one per phrasing, in order. */
  function ResponseEntriesOf(key: string, v: Variations): (r: seq<Entry>)
  {
    match v
    case One(s) => [Entry(ResponseEntry, key, s, KeyWords(key))]
    case Many(xs) => seq(|xs|, i requires 0 <= i < |xs| => Entry(ResponseEntry, key, xs[i], KeyWords(key)))
  }

  /** The phrasings of a response. */
  function Phrasings(v: Variations): seq<string> {
    match v
    case One(s) => [s]
    case Many(xs) => xs
  }

  /** The entry of item `i` of a listed fact, keyed `key[i]`. */
  function ItemEntry(key: string, i: nat, item: string): Entry {
    Entry(PersonalEntry, key + "[" + NatToString(i) + "]", item, key)
  }

  /** The entries of one personal fact. */
  function PersonalEntriesOf(key: string, v: PersonalValue): (r: seq<Entry>)
  {
    match v
    case PText(s) => [Entry(PersonalEntry, key, s, key)]
    case PList(items) =>
      seq(|items|, i requires 0 <= i < |items| => ItemEntry(key, i, items[i]))
    case POther => []
  }

  function ResponseEntries(responses: seq<(string, Variations)>): seq<Entry> {
    if responses == [] then []
    else
      var last := responses[|responses| - 1];
      ResponseEntries(responses[..|responses| - 1]) + ResponseEntriesOf(last.0, last.1)
  }

  function PersonalEntries(personal: seq<(string, PersonalValue)>): seq<Entry> {
    if personal == [] then []
    else
      var last := personal[|personal| - 1];
      PersonalEntries(personal[..|personal| - 1]) + PersonalEntriesOf(last.0, last.1)
  }

  /** The entry list of `buildSearchIndex`: all response phrasings, then the personal facts. */
  function SearchIndex(kb: KB): seq<Entry> {
    ResponseEntries(kb.responses) + PersonalEntries(kb.personal)
  }

  /** The inner `forEach` over one response's phrasings: one pushed entry each. */
  method PushResponse(index: seq<Entry>, key: string, value: Variations) returns (r: seq<Entry>)
    ensures r == index + ResponseEntriesOf(key, value)
  {
    var texts := match value case One(s) => [s] case Many(xs) => xs;
    r := index;
    var j := 0;
    while j < |texts|
      invariant 0 <= j <= |texts|
      invariant r == index + ResponseEntriesOf(key, value)[..j]
    {
      var e := Entry(ResponseEntry, key, texts[j], KeyWords(key));
      assert ResponseEntriesOf(key, value)[..j + 1] == ResponseEntriesOf(key, value)[..j] + [e];
      r := r + [e];
      j := j + 1;
    }
    assert ResponseEntriesOf(key, value)[..j] == ResponseEntriesOf(key, value);
  }

  /** One personal fact: a string is pushed whole, a list item by item, anything else skipped. */
  method PushPersonal(index: seq<Entry>, key: string, value: PersonalValue) returns (r: seq<Entry>)
    ensures r == index + PersonalEntriesOf(key, value)
  {
    r := index;
    match value {
      case PText(s) =>
        r := r + [Entry(PersonalEntry, key, s, key)];
      case PList(items) =>
        var j := 0;
        while j < |items|
          invariant 0 <= j <= |items|
          invariant r == index + PersonalEntriesOf(key, value)[..j]
        {
          var e := ItemEntry(key, j, items[j]);
          assert PersonalEntriesOf(key, value)[..j + 1] == PersonalEntriesOf(key, value)[..j] + [e];
          r := r + [e];
          j := j + 1;
        }
        assert PersonalEntriesOf(key, value)[..j] == PersonalEntriesOf(key, value);
      case POther =>
    }
  }

  lemma ResponseEntriesStep(responses: seq<(string, Variations)>, i: nat)
    requires i < |responses|
    ensures ResponseEntries(responses[..i + 1]) == ResponseEntries(responses[..i]) + ResponseEntriesOf(responses[i].0, responses[i].1)
  {
    assert responses[..i + 1][..i] == responses[..i];
  }

  lemma PersonalEntriesStep(personal: seq<(string, PersonalValue)>, i: nat)
    requires i < |personal|
    ensures PersonalEntries(personal[..i + 1]) == PersonalEntries(personal[..i]) + PersonalEntriesOf(personal[i].0, personal[i].1)
  {
    assert personal[..i + 1][..i] == personal[..i];
  }

  /** `buildSearchIndex` up to the hand-over to the search library: the two `forEach` passes. */
  method BuildSearchIndex(kb: KB) returns (index: seq<Entry>)
    ensures index == SearchIndex(kb)
  {
    index := [];
    var i := 0;
    while i < |kb.responses|
      invariant 0 <= i <= |kb.responses|
      invariant index == ResponseEntries(kb.responses[..i])
    {
      ResponseEntriesStep(kb.responses, i);
      index := PushResponse(index, kb.responses[i].0, kb.responses[i].1);
      i := i + 1;
    }
    assert kb.responses[..i] == kb.responses;
    ghost var responsePart := index;
    i := 0;
    while i < |kb.personal|
      invariant 0 <= i <= |kb.personal|
      invariant index == responsePart + PersonalEntries(kb.personal[..i])
    {
      PersonalEntriesStep(kb.personal, i);
      AppendAssoc(responsePart, PersonalEntries(kb.personal[..i]), PersonalEntriesOf(kb.personal[i].0, kb.personal[i].1));
      index := PushPersonal(index, kb.personal[i].0, kb.personal[i].1);
      i := i + 1;
    }
    assert kb.personal[..i] == kb.personal;
  }

  /** Every phrasing of every response is indexed, under its key. */
  lemma {:induction false} ResponsePhrasingIndexed(responses: seq<(string, Variations)>, k: nat, s: string)
    requires k < |responses| && s in Phrasings(responses[k].1)
    ensures Entry(ResponseEntry, responses[k].0, s, KeyWords(responses[k].0)) in ResponseEntries(responses)
  {
    var n := |responses|;
    var e := Entry(ResponseEntry, responses[k].0, s, KeyWords(responses[k].0));
    if k == n - 1 {
      var v := responses[k].1;
      if v.Many? {
        var i :| 0 <= i < |v.options| && v.options[i] == s;
        assert ResponseEntriesOf(responses[k].0, v)[i] == e;
      }
      assert e in ResponseEntriesOf(responses[k].0, v);
    } else {
      assert responses[..n - 1][k] == responses[k];
      ResponsePhrasingIndexed(responses[..n - 1], k, s);
    }
  }

  /**
   * Conversely, every entry of the response part is a phrasing of a response stored
   * under its key, with the key's words as keywords.
   */
  lemma {:induction false} ResponseEntryFromKB(responses: seq<(string, Variations)>, e: Entry)
    requires e in ResponseEntries(responses)
    ensures e.kind == ResponseEntry && e.keywords == KeyWords(e.key)
    ensures exists k :: 0 <= k < |responses| && responses[k].0 == e.key && e.content in Phrasings(responses[k].1)
  {
    var n := |responses|;
    var last := responses[n - 1];
    if e in ResponseEntries(responses[..n - 1]) {
      ResponseEntryFromKB(responses[..n - 1], e);
      var k :| 0 <= k < n - 1 && responses[..n - 1][k].0 == e.key && e.content in Phrasings(responses[..n - 1][k].1);
      assert responses[k] == responses[..n - 1][k];
    } else {
      assert e in ResponseEntriesOf(last.0, last.1);
      if last.1.Many? {
        var i :| 0 <= i < |last.1.options| && ResponseEntriesOf(last.0, last.1)[i] == e;
        assert e.content == last.1.options[i];
      }
      assert responses[n - 1] == last;
    }
  }

  /**
   * Every entry of the personal part is of the personal kind and comes from a fact
   * stored as a string (same key, same text) or as a list (key `name[idx]`, the
   * item's text), with the fact's name as keywords.
   */
  lemma {:induction false} PersonalEntryFromKB(personal: seq<(string, PersonalValue)>, e: Entry)
    requires e in PersonalEntries(personal)
    ensures e.kind == PersonalEntry
    ensures exists k :: 0 <= k < |personal| && e.keywords == personal[k].0 && FromFact(e, personal[k].0, personal[k].1)
  {
    var n := |personal|;
    var last := personal[n - 1];
    if e in PersonalEntries(personal[..n - 1]) {
      PersonalEntryFromKB(personal[..n - 1], e);
      var k :| 0 <= k < n - 1 && e.keywords == personal[..n - 1][k].0 && FromFact(e, personal[..n - 1][k].0, personal[..n - 1][k].1);
      assert personal[k] == personal[..n - 1][k];
    } else {
      assert e in PersonalEntriesOf(last.0, last.1);
      if last.1.PList? {
        var i :| 0 <= i < |last.1.items| && PersonalEntriesOf(last.0, last.1)[i] == e;
        assert e.key == last.0 + "[" + NatToString(i) + "]" && e.content == last.1.items[i];
      }
      assert personal[n - 1] == last;
    }
  }

  /** `e` is the entry of fact `key` itself (a string) or of one of its items (a list). */
  predicate FromFact(e: Entry, key: string, v: PersonalValue) {
    match v
    case PText(s) => e.key == key && e.content == s
    case PList(items) => exists i :: 0 <= i < |items| && e.key == key + "[" + NatToString(i) + "]" && e.content == items[i]
    case POther => false
  }

  /** One entry per phrasing: the response part of the index has as many entries as there are phrasings. */
  lemma {:induction false} ResponseEntriesCount(responses: seq<(string, Variations)>)
    ensures |ResponseEntries(responses)| == PhrasingCount(responses)
  {
    if responses != [] {
      ResponseEntriesCount(responses[..|responses| - 1]);
    }
  }

  function PhrasingCount(responses: seq<(string, Variations)>): nat {
    if responses == [] then 0
    else PhrasingCount(responses[..|responses| - 1]) + |Phrasings(responses[|responses| - 1].1)|
  }
}
