/** An optional value, and what holds of every start of a sequence. */
module Common {

  datatype Option<+T> = None | Some(value: T)

  // Facts about joining sequences, over plain variables.

  lemma {:induction false} SplitLast<T>(s: seq<T>)
    requires s != []
    ensures s == s[..|s| - 1] + [s[|s| - 1]]
  {
  }

  lemma {:induction false} SplitFirst<T>(s: seq<T>)
    requires s != []
    ensures s == [s[0]] + s[1..]
  {
  }

  lemma {:induction false} SplitAt<T>(s: seq<T>, i: nat)
    requires i <= |s|
    ensures s == s[..i] + s[i..]
  {
  }

  lemma {:induction false} TakeNext<T>(s: seq<T>, i: nat)
    requires i < |s|
    ensures s[..i + 1] == s[..i] + [s[i]]
  {
  }

  lemma {:induction false} Appended<T>(s: seq<T>, x: T)
    ensures |s + [x]| == |s| + 1 && (s + [x])[..|s|] == s && (s + [x])[|s|] == x
  {
  }

  lemma {:induction false} Assoc<T>(a: seq<T>, b: seq<T>, c: seq<T>)
    ensures (a + b) + c == a + (b + c)
  {
  }

  lemma {:induction false} NothingAdded<T>(s: seq<T>)
    ensures s + [] == s && [] + s == s
  {
  }

  predicate Throughout<T>(p: seq<T> -> bool, xs: seq<T>) {
    forall n :: 0 <= n <= |xs| ==> p(xs[..n])
  }

  lemma {:induction false} ThroughoutNext<T>(p: seq<T> -> bool, xs: seq<T>)
    requires xs != []
    ensures Throughout(p, xs) <==> Throughout(p, xs[..|xs| - 1]) && p(xs)
  {
    var init := xs[..|xs| - 1];
    assert xs[..|xs|] == xs;
    assert forall n :: 0 <= n <= |init| ==> init[..n] == xs[..n];
  }
}
