/** General facts about sequences. */
module Sequences {

  lemma {:induction false} Assoc<T>(a: seq<T>, b: seq<T>, c: seq<T>)
    ensures a + (b + c) == (a + b) + c
  {
  }

  /** c is s with some elements left out. */
  predicate Subseq<T(==)>(c: seq<T>, s: seq<T>) {
    if c == [] then true
    else if s == [] then false
    else (c[0] == s[0] && Subseq(c[1..], s[1..])) || Subseq(c, s[1..])
  }

  lemma {:induction false} SubseqTail<T>(c: seq<T>, s: seq<T>)
    requires c != [] && Subseq(c, s)
    ensures s != [] && Subseq(c[1..], s[1..]) && Subseq(c[1..], s)
  {
    if !(c[0] == s[0] && Subseq(c[1..], s[1..])) {
      SubseqTail(c, s[1..]);
    }
  }

  lemma {:induction false} SubseqCons<T>(x: T, c: seq<T>, s: seq<T>)
    requires Subseq(c, s)
    ensures Subseq([x] + c, [x] + s)
  {
    assert ([x] + c)[1..] == c && ([x] + s)[1..] == s;
  }

  lemma {:induction false} SubseqLonger<T>(c: seq<T>, x: seq<T>, s: seq<T>)
    requires Subseq(c, s)
    ensures Subseq(c, x + s)
  {
    if x == [] {
      assert x + s == s;
    } else {
      SubseqLonger(c, x[1..], s);
      assert (x + s)[1..] == x[1..] + s;
    }
  }

  /** Dropping the last element of the whole costs a subsequence at most its own last element. */
  lemma {:induction false} SubseqDropLast<T>(c: seq<T>, s: seq<T>)
    requires c != [] && s != [] && Subseq(c, s)
    ensures Subseq(c[..|c| - 1], s[..|s| - 1])
  {
    var c', s' := c[..|c| - 1], s[..|s| - 1];
    if c' != [] {
      SubseqTail(c, s);
      if |s| == 1 {
        assert s[1..] == [];
      } else {
        assert s'[1..] == s[1..][..|s| - 2];
        if c[0] == s[0] && Subseq(c[1..], s[1..]) {
          SubseqDropLast(c[1..], s[1..]);
          assert c'[1..] == c[1..][..|c| - 2];
        } else {
          SubseqDropLast(c, s[1..]);
        }
      }
    }
  }

  lemma {:induction false} SubseqSnoc<T>(c: seq<T>, s: seq<T>, z: T)
    requires Subseq(c, s)
    ensures Subseq(c + [z], s + [z])
  {
    if c == [] {
      assert c + [z] == [z];
      assert Subseq([z], [z]);
      SubseqLonger([z], s, [z]);
    } else {
      assert (s + [z])[1..] == s[1..] + [z] && (c + [z])[1..] == c[1..] + [z];
      if c[0] == s[0] && Subseq(c[1..], s[1..]) {
        SubseqSnoc(c[1..], s[1..], z);
      } else {
        SubseqSnoc(c, s[1..], z);
      }
    }
  }

  lemma {:induction false} SubseqBoth<T>(x: seq<T>, c: seq<T>, s: seq<T>)
    requires Subseq(c, s)
    ensures Subseq(x + c, x + s)
  {
    if x == [] {
      assert x + c == c && x + s == s;
    } else {
      SubseqBoth(x[1..], c, s);
      SubseqCons(x[0], x[1..] + c, x[1..] + s);
      assert [x[0]] + (x[1..] + c) == x + c && [x[0]] + (x[1..] + s) == x + s;
    }
  }

  lemma {:induction false} SubseqConcat<T>(c: seq<T>, s: seq<T>, d: seq<T>, r: seq<T>)
    requires Subseq(c, s) && Subseq(d, r)
    ensures Subseq(c + d, s + r)
  {
    if c == [] {
      assert c + d == d;
      SubseqLonger(d, s, r);
    } else {
      assert (s + r)[1..] == s[1..] + r && (c + d)[1..] == c[1..] + d;
      if c[0] == s[0] && Subseq(c[1..], s[1..]) {
        SubseqConcat(c[1..], s[1..], d, r);
      } else {
        SubseqConcat(c, s[1..], d, r);
      }
    }
  }

  lemma {:induction false} SubseqRefl<T>(s: seq<T>)
    ensures Subseq(s, s)
  {
    if s != [] {
      SubseqRefl(s[1..]);
    }
  }

  lemma {:induction false} SubseqMembers<T>(c: seq<T>, s: seq<T>)
    requires Subseq(c, s)
    ensures forall x | x in c :: x in s
  {
    if c != [] {
      if c[0] == s[0] && Subseq(c[1..], s[1..]) {
        SubseqMembers(c[1..], s[1..]);
        assert forall x | x in c :: x == c[0] || x in c[1..];
      } else {
        SubseqMembers(c, s[1..]);
      }
    }
  }

  predicate Increasing(s: seq<nat>) {
    forall i, j | 0 <= i < j < |s| :: s[i] < s[j]
  }

  lemma {:induction false} IncreasingSnoc(at: seq<nat>, p: nat)
    requires Increasing(at) && forall q | q in at :: q < p
    ensures Increasing(at + [p])
  {
    assert forall k | 0 <= k < |at| :: at[k] in at;
  }

  lemma {:induction false} LastIsGreatest(s: seq<nat>, p: nat)
    requires Increasing(s) && s != []
    ensures p in s ==> p <= s[|s| - 1]
    ensures p in s[..|s| - 1] <==> p in s && p != s[|s| - 1]
    ensures Increasing(s[..|s| - 1])
  {
    assert s == s[..|s| - 1] + [s[|s| - 1]];
    if p in s[..|s| - 1] {
      var k :| 0 <= k < |s| - 1 && s[k] == p;
    }
  }

  lemma {:induction false} HasMember(s: seq<nat>)
    requires s != []
    ensures exists p: nat :: p in s
  {
    assert s[0] in s;
  }

  lemma {:induction false} IncreasingIsUnique(a: seq<nat>, b: seq<nat>)
    requires Increasing(a) && Increasing(b)
    requires forall p: nat :: p in a <==> p in b
    ensures a == b
  {
    if a == [] || b == [] {
      if a != [] {
        HasMember(a);
      } else if b != [] {
        HasMember(b);
      }
    } else {
      var x, y := a[|a| - 1], b[|b| - 1];
      var a', b' := a[..|a| - 1], b[..|b| - 1];
      assert x in a && y in b;
      LastIsGreatest(a, y);
      LastIsGreatest(b, x);
      forall p: nat
        ensures p in a' <==> p in b'
      {
        LastIsGreatest(a, p);
        LastIsGreatest(b, p);
      }
      IncreasingIsUnique(a', b');
      assert a == a' + [x] && b == b' + [y];
    }
  }
}
