/** Patterns inside a stream of inputs, in order but with anything in between. */
module Subsequences {

  ghost predicate Increasing(f: seq<nat>) {
    forall i, j :: 0 <= i < j < |f| ==> f[i] < f[j]
  }

  /** `f` says where in `s` each element of `p` is found. */
  ghost predicate Places<T>(f: seq<nat>, p: seq<T>, s: seq<T>) {
    && |f| == |p|
    && Increasing(f)
    && forall i :: 0 <= i < |f| ==> f[i] < |s| && s[f[i]] == p[i]
  }

  /** `p` is a subsequence of `s`. */
  ghost predicate Embeds<T>(p: seq<T>, s: seq<T>) {
    exists f: seq<nat> :: Places(f, p, s)
  }

  /** How far into `p` one gets by always taking the first input that fits. */
  function Greedy<T(==)>(p: seq<T>, s: seq<T>): (k: nat)
    ensures k <= |p|
  {
    if s == [] then 0
    else
      var k := Greedy(p, s[..|s| - 1]);
      if k < |p| && p[k] == s[|s| - 1] then k + 1 else k
  }

  lemma GreedyMore<T>(p: seq<T>, s: seq<T>, x: T)
    ensures var k := Greedy(p, s); Greedy(p, s + [x]) == if k < |p| && p[k] == x then k + 1 else k
  {
    assert (s + [x])[..|s|] == s;
  }

  /** A pattern has not begun exactly if its first element has not been seen. */
  lemma {:induction false} GreedyBegins<T>(p: seq<T>, s: seq<T>)
    requires p != []
    ensures Greedy(p, s) == 0 <==> p[0] !in s
    decreases |s|
  {
    if s != [] {
      GreedyBegins(p, s[..|s| - 1]);
      assert s == s[..|s| - 1] + [s[|s| - 1]];
    }
  }

  lemma {:induction false} GreedyEmbeds<T>(p: seq<T>, s: seq<T>) returns (f: seq<nat>)
    ensures Places(f, p[..Greedy(p, s)], s)
    decreases |s|
  {
    if s == [] {
      f := [];
    } else {
      var n := |s| - 1;
      f := GreedyEmbeds(p, s[..n]);
      if Greedy(p, s) > Greedy(p, s[..n]) {
        f := f + [n];
      }
    }
  }

  lemma PlacesPrefix<T>(f: seq<nat>, p: seq<T>, s: seq<T>, k: nat)
    requires Places(f, p, s) && k <= |p|
    ensures Places(f[..k], p[..k], s)
  {
  }

  lemma {:induction false} GreedyIsBest<T>(p: seq<T>, s: seq<T>, k: nat, f: seq<nat>)
    requires k <= |p| && Places(f, p[..k], s)
    ensures k <= Greedy(p, s)
    decreases |s|
  {
    if k > 0 {
      var n := |s| - 1;
      if f[k - 1] < n {
        assert Places(f, p[..k], s[..n]);
        GreedyIsBest(p, s[..n], k, f);
      } else {
        assert p[..k][..k - 1] == p[..k - 1];
        assert Places(f[..k - 1], p[..k - 1], s[..n]);
        GreedyIsBest(p, s[..n], k - 1, f[..k - 1]);
        assert p[k - 1] == s[n];
      }
    }
  }

  /** Greedy progress is the longest prefix of the pattern that is a subsequence of the inputs. */
  lemma GreedyIsLongest<T>(p: seq<T>, s: seq<T>, k: nat)
    requires k <= |p|
    ensures Embeds(p[..k], s) <==> k <= Greedy(p, s)
  {
    if Embeds(p[..k], s) {
      var f :| Places(f, p[..k], s);
      GreedyIsBest(p, s, k, f);
    }
    if k <= Greedy(p, s) {
      var f := GreedyEmbeds(p, s);
      PlacesPrefix(f, p[..Greedy(p, s)], s, k);
      assert p[..Greedy(p, s)][..k] == p[..k];
    }
  }

  /** A pattern is a subsequence of the inputs exactly if greedy progress completes it. */
  lemma CompleteIffEmbeds<T>(p: seq<T>, s: seq<T>)
    ensures Greedy(p, s) == |p| <==> Embeds(p, s)
  {
    assert p[..|p|] == p;
    GreedyIsLongest(p, s, |p|);
  }
}
