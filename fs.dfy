/**
 * The raw data tree the transform stage reads, as a value: a directory is the
 * list of its entries in the (arbitrary) order the operating system lists them,
 * and a file holds its decoded JSON document, or nothing when its text is not
 * valid JSON. `sorted(...)` over the paths of one directory is `SortByName`.
 */
module Fs {
  import opened Base
  import opened Text
  import opened Json

  datatype Node = File(body: Option<Json>) | Dir(entries: seq<Entry>)
  datatype Entry = Entry(name: string, node: Node)

  /** `parent / name`, when it exists: the first entry of that name in a directory. */
  function Child(parent: Node, name: string): (r: Option<Node>)
    ensures r.Some? ==> parent.Dir? && exists k :: 0 <= k < |parent.entries| && parent.entries[k] == Entry(name, r.value)
    ensures r.None? ==> !parent.Dir? || forall k :: 0 <= k < |parent.entries| ==> parent.entries[k].name != name
  {
    if !parent.Dir? then None else FindEntry(parent.entries, name)
  }

  function FindEntry(es: seq<Entry>, name: string): (r: Option<Node>)
    ensures r.Some? ==> exists k :: 0 <= k < |es| && es[k] == Entry(name, r.value)
    ensures r.None? ==> forall k :: 0 <= k < |es| ==> es[k].name != name
  {
    if es == [] then None
    else if es[0].name == name then Some(es[0].node)
    else
      var r := FindEntry(es[1..], name);
      if r.Some? then
        var k :| 0 <= k < |es[1..]| && es[1..][k] == Entry(name, r.value);
        assert es[k + 1] == Entry(name, r.value);
        r
      else r
  }

  /** Entries in non-decreasing order of their names. */
  predicate SortedByName(es: seq<Entry>) {
    forall i, j :: 0 <= i < j < |es| ==> LexLe(es[i].name, es[j].name)
  }

  /** The last entry of a list sorted by name has the greatest name. */
  lemma SortedLastIsGreatest(es: seq<Entry>)
    requires SortedByName(es) && es != []
    ensures forall e :: e in es ==> LexLe(e.name, es[|es| - 1].name)
  {
    forall e | e in es ensures LexLe(e.name, es[|es| - 1].name) {
      var k :| 0 <= k < |es| && es[k] == e;
      if k < |es| - 1 { assert LexLe(es[k].name, es[|es| - 1].name); }
    }
  }

  lemma LexLeTransitive(a: string, b: string, c: string)
    requires LexLe(a, b) && LexLe(b, c)
    ensures LexLe(a, c)
  {
    if a != b && b != c { LexLessTransitive(a, b, c); }
  }

  /** Insert one entry into a sorted list, before the first entry whose name is not smaller. */
  function Insert(e: Entry, es: seq<Entry>): (r: seq<Entry>)
    requires SortedByName(es)
    ensures SortedByName(r)
    ensures multiset(r) == multiset(es) + multiset{e}
  {
    if es == [] then [e]
    else if LexLe(e.name, es[0].name) then
      forall j | 0 <= j < |es| ensures LexLe(e.name, es[j].name) {
        LexLeTransitive(e.name, es[0].name, es[j].name);
      }
      SortedCons(e, es);
      [e] + es
    else
      var rest := Insert(e, es[1..]);
      assert LexLe(es[0].name, e.name) by { LexLessTotal(e.name, es[0].name); }
      LowerBoundKept(es[0], es[1..], e, rest);
      SortedCons(es[0], rest);
      assert es == [es[0]] + es[1..];
      [es[0]] + rest
  }

  /** An entry no greater than any of a sorted list's entries can go in front of it. */
  lemma SortedCons(x: Entry, es: seq<Entry>)
    requires SortedByName(es)
    requires forall j :: 0 <= j < |es| ==> LexLe(x.name, es[j].name)
    ensures SortedByName([x] + es)
  {
    var r := [x] + es;
    forall i, j | 0 <= i < j < |r| ensures LexLe(r[i].name, r[j].name) {
      if i > 0 { assert r[i] == es[i - 1]; }
      assert r[j] == es[j - 1];
    }
  }

  /** A lower bound of a sorted list's tail and of the inserted entry bounds the result of the insertion. */
  lemma LowerBoundKept(x: Entry, es: seq<Entry>, e: Entry, rest: seq<Entry>)
    requires SortedByName([x] + es) && LexLe(x.name, e.name)
    requires multiset(rest) == multiset(es) + multiset{e}
    ensures forall j :: 0 <= j < |rest| ==> LexLe(x.name, rest[j].name)
  {
    forall j | 0 <= j < |rest| ensures LexLe(x.name, rest[j].name) {
      assert rest[j] in multiset(rest);
      if rest[j] != e {
        assert rest[j] in multiset(es);
        var k :| 0 <= k < |es| && es[k] == rest[j];
        var xs := [x] + es;
        assert xs[0] == x && xs[k + 1] == es[k];
        assert LexLe(xs[0].name, xs[k + 1].name);
      }
    }
  }

  /** Python's `sorted` applied to the paths of one directory: ordered by name, nothing lost. */
  function SortByName(es: seq<Entry>): (r: seq<Entry>)
    ensures SortedByName(r)
    ensures multiset(r) == multiset(es)
  {
    if es == [] then []
    else
      assert es == [es[0]] + es[1..];
      Insert(es[0], SortByName(es[1..]))
  }

  /** Sorting neither adds nor drops an entry. */
  lemma SortByNameMembers(es: seq<Entry>)
    ensures forall e :: e in SortByName(es) <==> e in es
  {
    var r := SortByName(es);
    forall e ensures e in r <==> e in es {
      assert e in r <==> e in multiset(r);
      assert e in es <==> e in multiset(es);
    }
  }

  /** Keep the entries satisfying `keep`, in their listed order. */
  function FilterEntries(es: seq<Entry>, keep: Entry -> bool): (r: seq<Entry>)
    ensures forall k :: 0 <= k < |r| ==> keep(r[k]) && r[k] in es
    ensures forall k :: 0 <= k < |es| && keep(es[k]) ==> es[k] in r
  {
    if es == [] then []
    else
      var rest := FilterEntries(es[1..], keep);
      assert forall k :: 0 <= k < |es[1..]| ==> es[1..][k] == es[k + 1];
      if keep(es[0]) then [es[0]] + rest else rest
  }
}
