// Python dictionaries from `str` to `int`, as the religion system keeps its
// blessings, curses and cooldowns: an association list in insertion order,
// one entry per key. Assigning to a present key keeps its place; a new key
// goes to the end; `del` removes the key's entry.

module Dicts {

  import opened Util

  type Entry = (string, int)

  predicate HasKey(d: seq<Entry>, k: string)
  {
    exists i | 0 <= i < |d| :: d[i].0 == k
  }

  /** The dictionary invariant: no key appears twice. */
  predicate UniqueKeys(d: seq<Entry>)
  {
    forall i, j | 0 <= i < j < |d| :: d[i].0 != d[j].0
  }

  /** `d.get(k)`: the value of the first entry with key `k`. */
  function Lookup(d: seq<Entry>, k: string): (r: Option<int>)
    ensures r.Some? <==> HasKey(d, k)
  {
    if d == [] then None
    else if d[0].0 == k then Some(d[0].1)
    else
      assert forall i | 0 <= i < |d| - 1 :: d[1..][i] == d[i + 1];
      Lookup(d[1..], k)
  }

  /** `d.get(k, default)`. */
  function GetOr(d: seq<Entry>, k: string, default: int): (r: int)
    ensures Lookup(d, k).Some? ==> r == Lookup(d, k).value
    ensures Lookup(d, k).None? ==> r == default
  {
    match Lookup(d, k)
    case Some(v) => v
    case None => default
  }

  /** `d[k] = v`. */
  function Put(d: seq<Entry>, k: string, v: int): seq<Entry>
  {
    if d == [] then [(k, v)]
    else if d[0].0 == k then [(k, v)] + d[1..]
    else [d[0]] + Put(d[1..], k, v)
  }

  /** `del d[k]`; a missing key leaves the dictionary as it is. */
  function Delete(d: seq<Entry>, k: string): seq<Entry>
  {
    if d == [] then []
    else if d[0].0 == k then d[1..]
    else [d[0]] + Delete(d[1..], k)
  }

  /** `for k, v in es: d[k] = v`, in the order of `es`. */
  function PutAll(d: seq<Entry>, es: seq<Entry>): seq<Entry>
  {
    if es == [] then d
    else
      var n := |es| - 1;
      Put(PutAll(d, es[..n]), es[n].0, es[n].1)
  }

  /** The value the last entry of `es` with key `k` assigns. */
  function LastLookup(es: seq<Entry>, k: string): Option<int>
  {
    if es == [] then None
    else
      var n := |es| - 1;
      if es[n].0 == k then Some(es[n].1) else LastLookup(es[..n], k)
  }

  /** The entries left after one turn of `for k in list(d): d[k] -= 1; if d[k] <= 0: del d[k]`. */
  function CountedDown(d: seq<Entry>): seq<Entry>
  {
    if d == [] then []
    else
      var n := |d| - 1;
      CountedDown(d[..n]) + (if d[n].1 - 1 > 0 then [(d[n].0, d[n].1 - 1)] else [])
  }

  /** The keys that same turn deletes, in order. */
  function ExpiredKeys(d: seq<Entry>): seq<string>
  {
    if d == [] then []
    else
      var n := |d| - 1;
      ExpiredKeys(d[..n]) + (if d[n].1 - 1 <= 0 then [d[n].0] else [])
  }

  /** `list(d)`: the keys in order. */
  function Keys(d: seq<Entry>): (r: seq<string>)
    ensures |r| == |d| && forall i | 0 <= i < |d| :: r[i] == d[i].0
  {
    seq(|d|, i requires 0 <= i < |d| => d[i].0)
  }

  // ---------------------------------------------------------------------------
  // Keys of sequences built from pieces

  lemma HasKeyTail(a: seq<Entry>, k: string)
    requires a != []
    ensures HasKey(a, k) <==> a[0].0 == k || HasKey(a[1..], k)
  {
    if HasKey(a[1..], k) {
      var i :| 0 <= i < |a| - 1 && a[1..][i].0 == k;
      assert a[i + 1].0 == k;
    }
    if HasKey(a, k) && a[0].0 != k {
      var i :| 0 <= i < |a| && a[i].0 == k;
      assert a[1..][i - 1].0 == k;
    }
  }

  lemma HasKeySnoc(a: seq<Entry>, k: string)
    requires a != []
    ensures HasKey(a, k) <==> HasKey(a[..|a| - 1], k) || a[|a| - 1].0 == k
  {
    var n := |a| - 1;
    if HasKey(a[..n], k) {
      var i :| 0 <= i < n && a[..n][i].0 == k;
      assert a[i].0 == k;
    }
    if HasKey(a, k) && a[n].0 != k {
      var i :| 0 <= i < |a| && a[i].0 == k;
      assert a[..n][i].0 == k;
    }
  }

  lemma HasKeyAppend(a: seq<Entry>, b: seq<Entry>, k: string)
    ensures HasKey(a + b, k) <==> HasKey(a, k) || HasKey(b, k)
  {
    if HasKey(a + b, k) {
      var i :| 0 <= i < |a + b| && (a + b)[i].0 == k;
      if i < |a| { assert a[i].0 == k; } else { assert b[i - |a|].0 == k; }
    }
    if HasKey(a, k) {
      var i :| 0 <= i < |a| && a[i].0 == k;
      assert (a + b)[i].0 == k;
    }
    if HasKey(b, k) {
      var i :| 0 <= i < |b| && b[i].0 == k;
      assert (a + b)[|a| + i].0 == k;
    }
  }

  /** The first key of a dictionary appears nowhere after it. */
  lemma UniqueHead(d: seq<Entry>)
    requires UniqueKeys(d) && d != []
    ensures UniqueKeys(d[1..]) && !HasKey(d[1..], d[0].0)
  {
    forall i | 0 <= i < |d| - 1 ensures d[1..][i].0 != d[0].0 {
      assert d[1..][i] == d[i + 1];
    }
  }

  /** The last key of a dictionary appears nowhere before it. */
  lemma UniqueLast(d: seq<Entry>)
    requires UniqueKeys(d) && d != []
    ensures UniqueKeys(d[..|d| - 1]) && !HasKey(d[..|d| - 1], d[|d| - 1].0)
  {
    var n := |d| - 1;
    forall i | 0 <= i < n ensures d[..n][i].0 != d[n].0 {
      assert d[..n][i] == d[i];
    }
  }

  // ---------------------------------------------------------------------------
  // Lookup after each operation

  lemma {:induction false} LookupAppend(a: seq<Entry>, b: seq<Entry>, k: string)
    ensures Lookup(a + b, k) == if HasKey(a, k) then Lookup(a, k) else Lookup(b, k)
  {
    if a != [] {
      assert (a + b)[0] == a[0];
      assert (a + b)[1..] == a[1..] + b;
      LookupAppend(a[1..], b, k);
      HasKeyTail(a, k);
    } else {
      assert a + b == b;
    }
  }

  /** After `d[k] = v` the key holds `v` and every other key keeps its value. */
  lemma {:induction false} LookupPut(d: seq<Entry>, k: string, v: int, k': string)
    ensures Lookup(Put(d, k, v), k') == if k' == k then Some(v) else Lookup(d, k')
  {
    if d != [] && d[0].0 != k {
      LookupPut(d[1..], k, v, k');
    }
  }

  /** After `del d[k]` on a dictionary the key is gone and every other key keeps its value. */
  lemma {:induction false} LookupDelete(d: seq<Entry>, k: string, k': string)
    requires UniqueKeys(d)
    ensures Lookup(Delete(d, k), k') == if k' == k then None else Lookup(d, k')
  {
    if d != [] {
      UniqueHead(d);
      if d[0].0 != k {
        LookupDelete(d[1..], k, k');
      }
    }
  }

  /** After `for k, v in es: d[k] = v`, a key of `es` holds the value its last
      entry assigns, and every other key keeps its value. */
  lemma {:induction false} LookupPutAll(d: seq<Entry>, es: seq<Entry>, k: string)
    ensures Lookup(PutAll(d, es), k) == if LastLookup(es, k).Some? then LastLookup(es, k) else Lookup(d, k)
  {
    if es != [] {
      var n := |es| - 1;
      LookupPutAll(d, es[..n], k);
      LookupPut(PutAll(d, es[..n]), es[n].0, es[n].1, k);
    }
  }

  /** In a dictionary the last entry of a key is its only entry. */
  lemma {:induction false} LastLookupUnique(es: seq<Entry>, k: string)
    requires UniqueKeys(es)
    ensures LastLookup(es, k) == Lookup(es, k)
  {
    if es != [] {
      var n := |es| - 1;
      assert es == es[..n] + [es[n]];
      UniqueLast(es);
      LastLookupUnique(es[..n], k);
      LookupAppend(es[..n], [es[n]], k);
    }
  }

  // ---------------------------------------------------------------------------
  // The dictionary invariant

  lemma {:induction false} PutKeys(d: seq<Entry>, k: string, v: int, k': string)
    ensures HasKey(Put(d, k, v), k') <==> k' == k || HasKey(d, k')
  {
    LookupPut(d, k, v, k');
  }

  /** `d[k] = v` keeps the keys unique. */
  lemma {:induction false} PutUnique(d: seq<Entry>, k: string, v: int)
    requires UniqueKeys(d)
    ensures UniqueKeys(Put(d, k, v))
  {
    if d != [] {
      UniqueHead(d);
      if d[0].0 != k {
        PutUnique(d[1..], k, v);
        PutKeys(d[1..], k, v, d[0].0);
      }
    }
  }

  /** `for k, v in es: d[k] = v` keeps the keys unique. */
  lemma {:induction false} PutAllUnique(d: seq<Entry>, es: seq<Entry>)
    requires UniqueKeys(d)
    ensures UniqueKeys(PutAll(d, es))
  {
    if es != [] {
      var n := |es| - 1;
      PutAllUnique(d, es[..n]);
      PutUnique(PutAll(d, es[..n]), es[n].0, es[n].1);
    }
  }

  // ---------------------------------------------------------------------------
  // The countdown

  lemma {:induction false} CountedDownKeys(d: seq<Entry>, k: string)
    ensures HasKey(CountedDown(d), k) ==> HasKey(d, k)
  {
    if d != [] {
      var n := |d| - 1;
      CountedDownKeys(d[..n], k);
      var t: seq<Entry> := if d[n].1 - 1 > 0 then [(d[n].0, d[n].1 - 1)] else [];
      HasKeyAppend(CountedDown(d[..n]), t, k);
      HasKeySnoc(d, k);
    }
  }

  /** One turn of the countdown keeps the keys unique. */
  lemma {:induction false} CountedDownUnique(d: seq<Entry>)
    requires UniqueKeys(d)
    ensures UniqueKeys(CountedDown(d))
  {
    if d != [] {
      var n := |d| - 1;
      UniqueLast(d);
      CountedDownUnique(d[..n]);
      CountedDownKeys(d[..n], d[n].0);
      var c := CountedDown(d[..n]);
      var t: seq<Entry> := if d[n].1 - 1 > 0 then [(d[n].0, d[n].1 - 1)] else [];
      forall i, j | 0 <= i < j < |c + t| ensures (c + t)[i].0 != (c + t)[j].0 {
        if j < |c| {
          assert (c + t)[i] == c[i] && (c + t)[j] == c[j];
        } else {
          assert (c + t)[i] == c[i] && (c + t)[j].0 == d[n].0;
        }
      }
    }
  }

  /** After one turn a key with more than one turn left has one turn less, and
      a key with at most one turn left is gone. */
  lemma {:induction false} LookupCountedDown(d: seq<Entry>, k: string)
    requires UniqueKeys(d)
    ensures Lookup(CountedDown(d), k)
      == if Lookup(d, k).Some? && Lookup(d, k).value > 1 then Some(Lookup(d, k).value - 1) else None
  {
    if d != [] {
      var n := |d| - 1;
      assert d == d[..n] + [d[n]];
      UniqueLast(d);
      LookupCountedDown(d[..n], k);
      LookupAppend(d[..n], [d[n]], k);
      var t: seq<Entry> := if d[n].1 - 1 > 0 then [(d[n].0, d[n].1 - 1)] else [];
      LookupAppend(CountedDown(d[..n]), t, k);
      CountedDownKeys(d[..n], k);
    }
  }

  /** The deleted keys are exactly those with at most one turn left. */
  lemma {:induction false} ExpiredKeysExactly(d: seq<Entry>, k: string)
    requires UniqueKeys(d)
    ensures k in ExpiredKeys(d) <==> Lookup(d, k).Some? && Lookup(d, k).value <= 1
  {
    if d != [] {
      var n := |d| - 1;
      assert d == d[..n] + [d[n]];
      UniqueLast(d);
      ExpiredKeysExactly(d[..n], k);
      LookupAppend(d[..n], [d[n]], k);
    }
  }

  // ---------------------------------------------------------------------------
  // The countdown, one entry at a time, as the loop of `process_turn` runs it

  /** `Put` on the first entry of a key replaces that entry. */
  lemma {:induction false} PutAt(a: seq<Entry>, k: string, x: int, b: seq<Entry>, v: int)
    requires !HasKey(a, k)
    ensures Put(a + [(k, x)] + b, k, v) == a + [(k, v)] + b
  {
    if a != [] {
      assert (a + [(k, x)] + b)[1..] == a[1..] + [(k, x)] + b;
      HasKeyTail(a, k);
      PutAt(a[1..], k, x, b, v);
    }
  }

  /** `Delete` on the first entry of a key removes that entry. */
  lemma {:induction false} DeleteAt(a: seq<Entry>, k: string, x: int, b: seq<Entry>)
    requires !HasKey(a, k)
    ensures Delete(a + [(k, x)] + b, k) == a + b
  {
    if a != [] {
      assert (a + [(k, x)] + b)[1..] == a[1..] + [(k, x)] + b;
      HasKeyTail(a, k);
      DeleteAt(a[1..], k, x, b);
    }
  }

  lemma LookupAt(a: seq<Entry>, k: string, x: int, b: seq<Entry>)
    requires !HasKey(a, k)
    ensures Lookup(a + [(k, x)] + b, k) == Some(x)
  {
    LookupAppend(a, [(k, x)] + b, k);
    assert a + [(k, x)] + b == a + ([(k, x)] + b);
  }

  /** The countdown of the first `i` entries, ahead of the entries not yet seen,
      when entry `i` is processed: its key is found with its old value, the
      decrement replaces it, and the deletion removes it. */
  lemma CountDownStep(d: seq<Entry>, i: int)
    requires UniqueKeys(d) && 0 <= i < |d|
    ensures GetOr(CountedDown(d[..i]) + d[i..], d[i].0, 0) == d[i].1
    ensures Put(CountedDown(d[..i]) + d[i..], d[i].0, d[i].1 - 1)
      == CountedDown(d[..i]) + [(d[i].0, d[i].1 - 1)] + d[i + 1..]
    ensures d[i].1 - 1 > 0 ==>
      && CountedDown(d[..i + 1]) + d[i + 1..] == CountedDown(d[..i]) + [(d[i].0, d[i].1 - 1)] + d[i + 1..]
      && ExpiredKeys(d[..i + 1]) == ExpiredKeys(d[..i])
    ensures d[i].1 - 1 <= 0 ==>
      && Delete(CountedDown(d[..i]) + [(d[i].0, d[i].1 - 1)] + d[i + 1..], d[i].0)
         == CountedDown(d[..i + 1]) + d[i + 1..]
      && ExpiredKeys(d[..i + 1]) == ExpiredKeys(d[..i]) + [d[i].0]
  {
    var k := d[i].0;
    var c := CountedDown(d[..i]);
    assert d[..i + 1][..i] == d[..i];
    assert d[i..] == [(k, d[i].1)] + d[i + 1..];
    CountedDownKeys(d[..i], k);
    UniqueLast(d[..i + 1]);
    LookupAt(c, k, d[i].1, d[i + 1..]);
    assert c + d[i..] == c + [(k, d[i].1)] + d[i + 1..];
    PutAt(c, k, d[i].1, d[i + 1..], d[i].1 - 1);
    DeleteAt(c, k, d[i].1 - 1, d[i + 1..]);
  }

  /** `for k in list(d): d[k] -= 1; if d[k] <= 0: del d[k]`, returning the
      deleted keys in order. */
  method CountDown(d: seq<Entry>) returns (r: seq<Entry>, expired: seq<string>)
    requires UniqueKeys(d)
    ensures r == CountedDown(d) && expired == ExpiredKeys(d)
  {
    var keys := Keys(d);
    r := d;
    expired := [];
    var i := 0;
    while i < |keys|
      invariant 0 <= i <= |d|
      invariant r == CountedDown(d[..i]) + d[i..]
      invariant expired == ExpiredKeys(d[..i])
    {
      var k := keys[i];
      CountDownStep(d, i);
      var left := GetOr(r, k, 0) - 1;
      r := Put(r, k, left);
      if left <= 0 {
        r := Delete(r, k);
        expired := expired + [k];
      }
      i := i + 1;
    }
    assert d[..i] == d;
  }
}
