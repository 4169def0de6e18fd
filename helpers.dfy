/**
 * The two template helpers of the action and the operation that installs them into
 * the Handlebars helper table.
 */
module Helpers {

  import opened JsValues
  import opened Handlebars

  /*
   * cardLinks: a content-type tag to call-to-action label lookup
   */

  const WATCH_VIDEO: string := "Watch video"
  const DOWNLOAD_PDF: string := "Download PDF"
  const VISIT_WEBSITE: string := "Visit website"
  const READ_MORE: string := "Read more"

  /**
   * The label starts out as the default and a `switch` (which compares with `===`)
   * replaces it for the three known tags. Every argument, of any type, gets a label.
   */
  function CardLinks(kind: Value): (text: string)
    ensures text == WATCH_VIDEO <==> kind == Str("VIDEO")
    ensures text == DOWNLOAD_PDF <==> kind == Str("PDF")
    ensures text == VISIT_WEBSITE <==> kind == Str("LINK")
    ensures text == READ_MORE <==> kind !in {Str("VIDEO"), Str("PDF"), Str("LINK")}
  {
    if StrictEquals(kind, Str("VIDEO")) then WATCH_VIDEO
    else if StrictEquals(kind, Str("PDF")) then DOWNLOAD_PDF
    else if StrictEquals(kind, Str("LINK")) then VISIT_WEBSITE
    else READ_MORE
  }

  /*
   * filter: the records whose `key` property is strictly equal to `value`
   */

  /** The predicate `item[key] === value` of the helper's callback. */
  predicate Matches(item: Record, key: string, value: Value)
  {
    StrictEquals(Get(item, key), value)
  }

  /** `array.filter(item => item[key] === value)`. */
  function Filter(items: seq<Record>, key: string, value: Value): (r: seq<Record>)
    ensures |r| <= |items|
    ensures forall i :: 0 <= i < |r| ==> Matches(r[i], key, value)
    ensures items == [] ==> r == []
  {
    if items == [] then []
    else (if Matches(items[0], key, value) then [items[0]] else []) + Filter(items[1..], key, value)
  }

  /** `r` can be obtained from `a` by deleting elements, without reordering the rest. */
  predicate IsSubsequence<T(==)>(r: seq<T>, a: seq<T>)
    decreases |a|
  {
    if r == [] then true
    else if a == [] then false
    else (r[0] == a[0] && IsSubsequence(r[1..], a[1..])) || IsSubsequence(r, a[1..])
  }

  /** The filtered records keep their original relative order. */
  lemma {:induction false} FilterIsSubsequence(items: seq<Record>, key: string, value: Value)
    ensures IsSubsequence(Filter(items, key, value), items)
  {
    if items != [] {
      FilterIsSubsequence(items[1..], key, value);
      var rest := Filter(items[1..], key, value);
      if Matches(items[0], key, value) {
        assert Filter(items, key, value) == [items[0]] + rest;
      } else {
        assert Filter(items, key, value) == rest;
        SubsequenceOfTail(rest, items);
      }
    }
  }

  /** A helper step: a subsequence of the tail is a subsequence of the whole. */
  lemma SubsequenceOfTail<T>(r: seq<T>, a: seq<T>)
    requires a != [] && IsSubsequence(r, a[1..])
    ensures IsSubsequence(r, a)
  {
  }

  /**
   * Every matching record is kept as often as it occurs, and nothing else is kept:
   * the output holds exactly the matching occurrences of the input.
   */
  lemma {:induction false} FilterCounts(items: seq<Record>, key: string, value: Value, x: Record)
    ensures multiset(Filter(items, key, value))[x]
      == if Matches(x, key, value) then multiset(items)[x] else 0
  {
    if items != [] {
      FilterCounts(items[1..], key, value, x);
      assert items == [items[0]] + items[1..];
    }
  }

  /** Every input record that satisfies the predicate appears in the output. */
  lemma FilterKeepsEveryMatch(items: seq<Record>, key: string, value: Value, i: nat)
    requires i < |items| && Matches(items[i], key, value)
    ensures items[i] in Filter(items, key, value)
  {
    FilterCounts(items, key, value, items[i]);
    assert items[i] in multiset(items);
  }

  /** A subsequence never holds more copies of an element than the sequence it came from. */
  lemma {:induction false} SubsequenceCount<T>(r: seq<T>, a: seq<T>, x: T)
    requires IsSubsequence(r, a)
    ensures multiset(r)[x] <= multiset(a)[x]
    decreases |a|
  {
    if r != [] {
      assert a == [a[0]] + a[1..];
      if r[0] == a[0] && IsSubsequence(r[1..], a[1..]) {
        SubsequenceCount(r[1..], a[1..], x);
        assert r == [r[0]] + r[1..];
      } else {
        SubsequenceCount(r, a[1..], x);
      }
    }
  }

  /** The occurrences of `x` in a sequence: those in its head plus those in its tail. */
  lemma CountSplit<T>(s: seq<T>, x: T)
    requires s != []
    ensures multiset(s)[x] == multiset(s[1..])[x] + (if x == s[0] then 1 else 0)
  {
    assert s == [s[0]] + s[1..];
  }

  /**
   * A subsequence that keeps every occurrence of a head element must take that head
   * as its own first element.
   */
  lemma TakesHead<T>(r: seq<T>, a: seq<T>)
    requires a != [] && IsSubsequence(r, a)
    requires multiset(r)[a[0]] == multiset(a)[a[0]]
    ensures r != [] && r[0] == a[0] && IsSubsequence(r[1..], a[1..])
  {
    CountSplit(a, a[0]);
    if !(r != [] && r[0] == a[0] && IsSubsequence(r[1..], a[1..])) {
      SubsequenceCount(r, a[1..], a[0]);
      assert false;
    }
  }

  /**
   * Filter is the ONLY order-preserving selection of exactly the matching records:
   * any subsequence of the input whose elements all match, and which keeps every
   * matching occurrence, is the output of Filter.
   */
  lemma {:induction false} FilterIsUnique(r: seq<Record>, items: seq<Record>, key: string, value: Value)
    requires IsSubsequence(r, items)
    requires forall i :: 0 <= i < |r| ==> Matches(r[i], key, value)
    requires forall x :: multiset(r)[x] == if Matches(x, key, value) then multiset(items)[x] else 0
    ensures r == Filter(items, key, value)
    decreases |items|
  {
    if items != [] {
      if Matches(items[0], key, value) {
        var rest := TailOfMatchingHead(r, items, key, value);
        FilterIsUnique(rest, items[1..], key, value);
        assert r == [items[0]] + rest;
      } else {
        SkipsNonMatchingHead(r, items, key, value);
        FilterIsUnique(r, items[1..], key, value);
      }
    }
  }

  /** When the head matches, it opens the selection, and the rest is a selection of the tail. */
  lemma TailOfMatchingHead(r: seq<Record>, items: seq<Record>, key: string, value: Value) returns (rest: seq<Record>)
    requires items != [] && Matches(items[0], key, value)
    requires IsSubsequence(r, items)
    requires forall i :: 0 <= i < |r| ==> Matches(r[i], key, value)
    requires forall x :: multiset(r)[x] == if Matches(x, key, value) then multiset(items)[x] else 0
    ensures r == [items[0]] + rest
    ensures IsSubsequence(rest, items[1..])
    ensures forall i :: 0 <= i < |rest| ==> Matches(rest[i], key, value)
    ensures forall x :: multiset(rest)[x] == if Matches(x, key, value) then multiset(items[1..])[x] else 0
  {
    TakesHead(r, items);
    rest := r[1..];
    forall x
      ensures multiset(rest)[x] == if Matches(x, key, value) then multiset(items[1..])[x] else 0
    {
      CountSplit(r, x);
      CountSplit(items, x);
    }
  }

  /** When the head does not match, the selection is a selection of the tail. */
  lemma SkipsNonMatchingHead(r: seq<Record>, items: seq<Record>, key: string, value: Value)
    requires items != [] && !Matches(items[0], key, value)
    requires IsSubsequence(r, items)
    requires forall i :: 0 <= i < |r| ==> Matches(r[i], key, value)
    requires forall x :: multiset(r)[x] == if Matches(x, key, value) then multiset(items)[x] else 0
    ensures IsSubsequence(r, items[1..])
    ensures forall x :: multiset(r)[x] == if Matches(x, key, value) then multiset(items[1..])[x] else 0
  {
    assert r != [] ==> r[0] != items[0];
    forall x
      ensures multiset(r)[x] == if Matches(x, key, value) then multiset(items[1..])[x] else 0
    {
      CountSplit(items, x);
    }
  }

  /** When every record matches, nothing is dropped. */
  lemma {:induction false} FilterKeepsAllWhenAllMatch(items: seq<Record>, key: string, value: Value)
    requires forall i :: 0 <= i < |items| ==> Matches(items[i], key, value)
    ensures Filter(items, key, value) == items
  {
    if items != [] {
      FilterKeepsAllWhenAllMatch(items[1..], key, value);
      assert items == [items[0]] + items[1..];
    }
  }

  /** Filtering twice with the same key and value is the same as filtering once. */
  lemma FilterIdempotent(items: seq<Record>, key: string, value: Value)
    ensures Filter(Filter(items, key, value), key, value) == Filter(items, key, value)
  {
    FilterKeepsAllWhenAllMatch(Filter(items, key, value), key, value);
  }

  /*
   * registerHelpers
   */

  const CARD_LINKS: string := "cardLinks"
  const FILTER: string := "filter"

  /** The helper table after `registerHelpers` ran on `table`. */
  function Registered(table: map<string, Helper>): (r: map<string, Helper>)
    ensures r.Keys == table.Keys + {CARD_LINKS, FILTER}
    ensures r[CARD_LINKS] == CardLinksHelper && r[FILTER] == FilterHelper
    ensures forall name :: name in table && name != CARD_LINKS && name != FILTER ==> r[name] == table[name]
  {
    table[CARD_LINKS := CardLinksHelper][FILTER := FilterHelper]
  }

  /** Registering a second time changes nothing. */
  lemma RegisteredIdempotent(table: map<string, Helper>)
    ensures Registered(Registered(table)) == Registered(table)
  {
  }

  /** Installs `cardLinks` then `filter`, overwriting earlier helpers of those names. */
  method RegisterHelpers(engine: Engine)
    modifies engine
    ensures engine.helpers == Registered(old(engine.helpers))
    ensures engine.partials == old(engine.partials)
  {
    engine.RegisterHelper(CARD_LINKS, CardLinksHelper);
    engine.RegisterHelper(FILTER, FilterHelper);
  }
}
