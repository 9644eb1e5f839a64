/** Sequences of anything. */
module Seqs {

  ghost predicate Distinct<T>(s: seq<T>) {
    forall i, j :: 0 <= i < j < |s| ==> s[i] != s[j]
  }

  lemma Joined<T>(s: seq<T>, a: nat, b: nat, c: nat)
    requires a <= b <= c <= |s|
    ensures s[a..b] + s[b..c] == s[a..c]
  {
  }

  lemma HeadTail<T>(whole: seq<T>, n: nat, head: T, tail: seq<T>)
    requires n <= |whole| && whole[n..] == [head] + tail
    ensures n < |whole| && whole[n] == head && whole[n + 1..] == tail && whole[..n] + [head] == whole[..n + 1]
  {
    assert whole[n..][0] == head && whole[n..][1..] == tail;
  }

  /** Where the four parts of a stretch are. */
  lemma Pieces<T>(s: seq<T>, at: nat, a: seq<T>, b: seq<T>, c: seq<T>, d: seq<T>)
    requires at + |a + b + c + d| <= |s| && s[at..at + |a + b + c + d|] == a + b + c + d
    ensures s[at..at + |a|] == a && s[at + |a|..at + |a| + |b|] == b
    ensures s[at + |a| + |b|..at + |a| + |b| + |c|] == c
    ensures s[at + |a| + |b| + |c|..at + |a| + |b| + |c| + |d|] == d
  {
    var all := a + b + c + d;
    var i, j, k := |a|, |a| + |b|, |a| + |b| + |c|;
    assert all[..i] == a && all[i..j] == b && all[j..k] == c && all[k..] == d;
    Slice(s, at, all, 0, i);
    Slice(s, at, all, i, j);
    Slice(s, at, all, j, k);
    Slice(s, at, all, k, |all|);
  }

  lemma Slice<T>(s: seq<T>, at: nat, all: seq<T>, i: nat, j: nat)
    requires i <= j <= |all| && at + |all| <= |s| && s[at..at + |all|] == all
    ensures s[at + i..at + j] == all[i..j]
  {
    forall k | 0 <= k < j - i ensures s[at + i..at + j][k] == all[i..j][k] {
      assert s[at..at + |all|][i + k] == s[at + i + k];
    }
  }
}
