/** Facts about sequences and sets that several modules share. */
module Sequences {

  lemma InsertCounts<T>(s: seq<T>, x: T, at: nat)
    requires at <= |s|
    ensures multiset(s[..at] + [x] + s[at..]) == multiset(s) + multiset{x}
  {
    assert s == s[..at] + s[at..];
  }

  lemma RemoveCounts<T>(s: seq<T>, i: nat)
    requires i < |s|
    ensures multiset(s) == multiset(s[..i] + s[i + 1..]) + multiset{s[i]}
  {
    var rest := s[..i] + s[i + 1..];
    InsertCounts(rest, s[i], i);
    assert rest[..i] == s[..i] && rest[i..] == s[i + 1..];
    assert s == rest[..i] + [s[i]] + rest[i..];
  }

  lemma Cancels<T>(a: multiset<T>, b: multiset<T>, x: T)
    requires a + multiset{x} == b + multiset{x}
    ensures a == b
  {
    assert a == (a + multiset{x}) - multiset{x};
    assert b == (b + multiset{x}) - multiset{x};
  }

  lemma Regroup<T>(a: seq<T>, b: seq<T>, c: seq<T>)
    ensures a + b + c == a + (b + c)
  {
  }

  lemma Smaller<T>(a: set<T>, b: set<T>)
    requires a <= b
    ensures |a| <= |b|
  {
    assert b == a + (b - a);
  }
}

/** A value that may be missing. */
module Options {

  datatype Option<T> = None | Some(value: T)
}
