/** Failure-carrying values, and small facts about sets and sequences, shared by every module of the model. */
module Wrappers {

  /** A value that may be absent (a Go `(v, ok)` pair or a nil reference). */
  datatype Option<T> = None | Some(value: T)

  /** A Go `(value, error)` pair: `Err` carries the error's message text. */
  datatype Result<T> = Ok(value: T) | Err(error: string)

  /** A non-empty set has an element, so `:|` can pick one from it. */
  lemma HasElement(s: set<int>)
    requires s != {}
    ensures exists x: int :: x in s
  {
    assert (forall x: int :: x !in s) ==> s == {};
  }

  /** Concatenation is associative. */
  lemma AppendAssoc<T>(a: seq<T>, b: seq<T>, c: seq<T>)
    ensures (a + b) + c == a + (b + c)
  {
  }

  /** A sequence is what comes before position `j`, the element there, and the rest. */
  lemma Regroup<T>(p: seq<T>, a: seq<T>, m: seq<T>, b: seq<T>, q: seq<T>)
    ensures p + a + m + b + q == p + a + (m + b + q)
  {
  }

  lemma DropFront<T>(p: seq<T>, a: seq<T>, b: seq<T>, c: seq<T>)
    ensures (p + a + b + c)[|p|..] == a + (b + c)
  {
  }

  lemma DropOne<T>(x: seq<T>, b: seq<T>, c: seq<T>)
    requires |x| > 0
    ensures (x + b + c)[0] == x[0] && (x + b + c)[1..] == x[1..] + b + c
  {
  }

  lemma DropFrontOf<T>(x: seq<T>, b: seq<T>, c: seq<T>, n: nat)
    requires n <= |x|
    ensures (x + b + c)[n..] == x[n..] + b + c
  {
  }

  lemma TakeFront<T>(x: seq<T>, b: seq<T>, c: seq<T>, n: nat)
    requires n <= |x|
    ensures (x + b + c)[..n] == x[..n]
  {
  }

  lemma ConsRegroup<T>(h: seq<T>, a: seq<T>, m: seq<T>, b: seq<T>)
    ensures h + (a + m + b) == h + a + m + b
  {
  }

  lemma SplitAt<T>(s: seq<T>, j: nat)
    requires j < |s|
    ensures s == s[..j] + ([s[j]] + s[j + 1..])
    ensures ([s[j]] + s[j + 1..])[0] == s[j] && ([s[j]] + s[j + 1..])[1..] == s[j + 1..]
  {
    assert s == s[..j] + s[j..];
    assert s[j..] == [s[j]] + s[j + 1..];
  }
}
