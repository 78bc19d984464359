/** Lookups by id (`Array.prototype.findIndex`/`find`) and reversal, shared by the store and the views. */
module Seqs {
  import opened Types

  /** Index of the first element whose key is x, or -1: `findIndex(e => key(e) === x)`. */
  function IndexOf<T>(s: seq<T>, key: T -> string, x: string): (r: int)
    ensures -1 <= r < |s|
    ensures r >= 0 ==> key(s[r]) == x && forall j :: 0 <= j < r ==> key(s[j]) != x
    ensures r < 0 <==> forall j :: 0 <= j < |s| ==> key(s[j]) != x
  {
    if |s| == 0 then -1
    else if key(s[0]) == x then 0
    else
      var k := IndexOf(s[1..], key, x);
      if k < 0 then -1 else k + 1
  }

  /** The first element whose key is x: `find(e => key(e) === x)`. */
  function Find<T>(s: seq<T>, key: T -> string, x: string): (r: Option<T>)
    ensures r.None? <==> forall j :: 0 <= j < |s| ==> key(s[j]) != x
    ensures r.Some? ==>
      exists j :: 0 <= j < |s| && s[j] == r.value && key(s[j]) == x && (forall i :: 0 <= i < j ==> key(s[i]) != x)
  {
    var i := IndexOf(s, key, x);
    if i < 0 then None else Some(s[i])
  }

  /**
   * `s.find(e => key(e) === x)?.name || fallback`: the name of the first match,
   * unless there is none or its name is the (falsy) empty string.
   */
  function NameOr<T>(s: seq<T>, key: T -> string, name: T -> string, x: string, fallback: string): (r: string)
    ensures (forall j :: 0 <= j < |s| ==> key(s[j]) != x) ==> r == fallback
    ensures r != fallback ==> exists j :: 0 <= j < |s| && key(s[j]) == x && name(s[j]) == r
    ensures r == fallback || r != ""
    ensures forall j :: 0 <= j < |s| && key(s[j]) == x && (forall i :: 0 <= i < j ==> key(s[i]) != x) ==>
      r == (if name(s[j]) != "" then name(s[j]) else fallback)
  {
    match Find(s, key, x)
    case None => fallback
    case Some(e) => if name(e) != "" then name(e) else fallback
  }

  /** How many elements carry key x. */
  function CountKey<T>(s: seq<T>, key: T -> string, x: string): (n: nat)
    ensures n <= |s|
    ensures n == 0 <==> forall j :: 0 <= j < |s| ==> key(s[j]) != x
  {
    if |s| == 0 then 0
    else CountKey(s[..|s| - 1], key, x) + (if key(s[|s| - 1]) == x then 1 else 0)
  }

  lemma {:induction false} CountKeyAppend<T>(s: seq<T>, t: seq<T>, key: T -> string, x: string)
    ensures CountKey(s + t, key, x) == CountKey(s, key, x) + CountKey(t, key, x)
  {
    if |t| == 0 {
      assert s + t == s;
    } else {
      assert (s + t)[..|s + t| - 1] == s + t[..|t| - 1];
      CountKeyAppend(s, t[..|t| - 1], key, x);
    }
  }

  /** A prefix one longer is the prefix plus the next element. */
  lemma PrefixStep<T>(s: seq<T>, i: int)
    requires 0 <= i < |s|
    ensures s[..i + 1] == s[..i] + [s[i]]
  {
  }

  /** No two elements share a key. */
  predicate UniqueKeys<T>(s: seq<T>, key: T -> string)
  {
    forall i, j :: 0 <= i < j < |s| ==> key(s[i]) != key(s[j])
  }

  /** No element occurs twice. */
  predicate NoRepeats<T(==)>(s: seq<T>)
  {
    forall i, j :: 0 <= i < j < |s| ==> s[i] != s[j]
  }

  /** A sequence in the opposite order (`slice().reverse()`). */
  function Reverse<T>(s: seq<T>): (r: seq<T>)
    ensures |r| == |s|
    ensures |s| > 0 ==> r[0] == s[|s| - 1] && r[|s| - 1] == s[0]
  {
    if |s| == 0 then [] else Reverse(s[1..]) + [s[0]]
  }

  lemma {:induction false} ReverseAt<T>(s: seq<T>)
    ensures |Reverse(s)| == |s|
    ensures forall k :: 0 <= k < |s| ==> Reverse(s)[k] == s[|s| - 1 - k]
  {
    if |s| > 0 {
      ReverseAt(s[1..]);
    }
  }

  lemma {:induction false} ReverseReverse<T>(s: seq<T>)
    ensures Reverse(Reverse(s)) == s
  {
    ReverseAt(s);
    ReverseAt(Reverse(s));
  }
}
