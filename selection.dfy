/**
 * The ordered, duplicate-free id lists the board keeps as its selection, and
 * `sanitizeSelection`: `[...new Set(selection)].filter((id) => known.has(id))`.
 */
module Selection {

  predicate NoDup(s: seq<string>) {
    forall i, j :: 0 <= i < j < |s| ==> s[i] != s[j]
  }

  /** The position of the first occurrence of `x` in `s`. */
  function IndexOf(s: seq<string>, x: string): (k: nat)
    requires x in s
    ensures k < |s| && s[k] == x && x !in s[..k]
    decreases |s|
  {
    var init := s[..|s| - 1];
    if x in init then
      var k := IndexOf(init, x);
      assert init[..k] == s[..k];
      k
    else
      |s| - 1
  }

  /** `[...new Set(s)]`: each id once. */
  function Dedup(s: seq<string>): (r: seq<string>)
    ensures NoDup(r)
    ensures forall x :: x in r <==> x in s
    decreases |s|
  {
    if s == [] then []
    else
      var init, c := s[..|s| - 1], s[|s| - 1];
      var d := Dedup(init);
      if c in d then d else d + [c]
  }

  /** `Dedup` keeps each id at the place of its first occurrence. */
  lemma {:induction false} DedupOrder(s: seq<string>)
    ensures forall i, j :: 0 <= i < j < |Dedup(s)| ==> IndexOf(s, Dedup(s)[i]) < IndexOf(s, Dedup(s)[j])
    decreases |s|
  {
    if s != [] {
      var init, c := s[..|s| - 1], s[|s| - 1];
      DedupOrder(init);
      var d := Dedup(init);
      forall i | 0 <= i < |d| ensures d[i] in init && IndexOf(s, d[i]) == IndexOf(init, d[i]) < |init| {
        assert d[i] in d;
        IndexOfInit(s, d[i]);
      }
      if c in d {
        assert Dedup(s) == d;
      } else {
        var r := d + [c];
        assert Dedup(s) == r;
        IndexOfLast(s);
        forall i, j | 0 <= i < j < |r| ensures IndexOf(s, r[i]) < IndexOf(s, r[j]) {
          assert r[i] == d[i];
          if j < |d| {
            assert r[j] == d[j];
          } else {
            assert r[j] == c;
          }
        }
      }
    }
  }

  /** `ids.filter((id) => known.has(id))`. */
  function KeepKnown(ids: seq<string>, known: seq<string>): (r: seq<string>)
    ensures forall x :: x in r <==> x in ids && x in known
    decreases |ids|
  {
    if ids == [] then []
    else
      var init, c := ids[..|ids| - 1], ids[|ids| - 1];
      if c in known then KeepKnown(init, known) + [c] else KeepKnown(init, known)
  }

  /** Filtering a duplicate-free list keeps it duplicate-free and keeps the order of first occurrences. */
  lemma {:induction false} KeepKnownOrder(ids: seq<string>, known: seq<string>)
    requires NoDup(ids)
    ensures NoDup(KeepKnown(ids, known))
    ensures forall i, j :: 0 <= i < j < |KeepKnown(ids, known)| ==>
              IndexOf(ids, KeepKnown(ids, known)[i]) < IndexOf(ids, KeepKnown(ids, known)[j])
    decreases |ids|
  {
    if ids != [] {
      var init, c := ids[..|ids| - 1], ids[|ids| - 1];
      assert NoDup(init);
      KeepKnownOrder(init, known);
      var k := KeepKnown(init, known);
      assert c !in init by {
        forall x | x in init ensures x != c {
          var p :| 0 <= p < |init| && init[p] == x;
          assert ids[p] == x;
        }
      }
      forall i | 0 <= i < |k| ensures k[i] in init && IndexOf(ids, k[i]) == IndexOf(init, k[i]) < |init| {
        assert k[i] in k;
        IndexOfInit(ids, k[i]);
      }
      if c in known {
        var r := k + [c];
        assert KeepKnown(ids, known) == r;
        IndexOfLast(ids);
        forall i, j | 0 <= i < j < |r| ensures r[i] != r[j] && IndexOf(ids, r[i]) < IndexOf(ids, r[j]) {
          assert r[i] == k[i];
          if j < |k| {
            assert r[j] == k[j];
          } else {
            assert r[j] == c;
          }
        }
      } else {
        assert KeepKnown(ids, known) == k;
      }
    }
  }

  lemma IndexOfInit(s: seq<string>, x: string)
    requires |s| > 0 && x in s[..|s| - 1]
    ensures IndexOf(s, x) == IndexOf(s[..|s| - 1], x)
  {
  }

  lemma IndexOfLast(s: seq<string>)
    requires |s| > 0 && s[|s| - 1] !in s[..|s| - 1]
    ensures IndexOf(s, s[|s| - 1]) == |s| - 1
  {
  }

  /**
   * `sanitizeSelection`: the ids of `selection` that are `known`, each once,
   * in the order of their first occurrence in `selection`.
   */
  function Sanitize(selection: seq<string>, known: seq<string>): (r: seq<string>)
    ensures NoDup(r)
    ensures forall x :: x in r <==> x in selection && x in known
    ensures forall i, j :: 0 <= i < j < |r| ==> IndexOf(selection, r[i]) < IndexOf(selection, r[j])
  {
    var d := Dedup(selection);
    var r := KeepKnown(d, known);
    DedupOrder(selection);
    KeepKnownOrder(d, known);
    forall i, j | 0 <= i < j < |r| ensures IndexOf(selection, r[i]) < IndexOf(selection, r[j]) {
      var p, q := IndexOf(d, r[i]), IndexOf(d, r[j]);
      assert p < q;
      assert d[p] == r[i] && d[q] == r[j];
    }
    r
  }

  /** Sanitizing a duplicate-free list of known ids changes nothing. */
  lemma SanitizeKeepsClean(selection: seq<string>, known: seq<string>)
    requires NoDup(selection)
    requires forall x :: x in selection ==> x in known
    ensures Sanitize(selection, known) == selection
  {
    DedupKeepsDistinct(selection);
    KeepKnownKeepsKnown(selection, known);
  }

  lemma {:induction false} DedupKeepsDistinct(s: seq<string>)
    requires NoDup(s)
    ensures Dedup(s) == s
    decreases |s|
  {
    if s != [] {
      var init := s[..|s| - 1];
      assert NoDup(init);
      DedupKeepsDistinct(init);
      assert s[|s| - 1] !in init;
      assert s == init + [s[|s| - 1]];
    }
  }

  lemma {:induction false} KeepKnownKeepsKnown(ids: seq<string>, known: seq<string>)
    requires forall x :: x in ids ==> x in known
    ensures KeepKnown(ids, known) == ids
    decreases |ids|
  {
    if ids != [] {
      var init, c := ids[..|ids| - 1], ids[|ids| - 1];
      assert forall x :: x in init ==> x in ids;
      KeepKnownKeepsKnown(init, known);
      assert c in known;
      assert KeepKnown(ids, known) == KeepKnown(init, known) + [c];
      assert ids == init + [c];
    }
  }
}
