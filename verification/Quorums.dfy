/** Counting arguments about vote quorums. */
module Quorums {

  lemma {:induction false} SubsetCard<T>(a: set<T>, b: set<T>)
    requires a <= b
    ensures |a| <= |b|
  {
    if a != {} {
      var x :| x in a;
      SubsetCard(a - {x}, b - {x});
    }
  }

  lemma UnionCard<T>(a: set<T>, b: set<T>)
    ensures |a + b| + |a * b| == |a| + |b|
  {
  }

  /** Two sets of voters that are too big to be disjoint outside the faulty ones share a correct one. */
  lemma CommonCorrect<T>(voters: set<T>, correct: set<T>, a: set<T>, b: set<T>, f: nat) returns (c: T)
    requires correct <= voters && |voters - correct| <= f && |voters| <= 3 * f + 1
    requires a <= voters && b <= voters && |a| >= 2 * f + 1 && |b| >= 2 * f + 1
    ensures c in a && c in b && c in correct
  {
    UnionCard(a, b);
    SubsetCard(a + b, voters);
    assert |a * b| >= f + 1;
    if a * b * correct == {} {
      SubsetCard(a * b, voters - correct);
      assert false;
    }
    c :| c in a * b * correct;
  }

  /** A quorum holds a correct voter, and at least 2f+1-|faulty| of them. */
  lemma CorrectInQuorum<T>(voters: set<T>, correct: set<T>, a: set<T>, f: nat)
    requires correct <= voters && |voters - correct| <= f
    requires a <= voters && |a| >= 2 * f + 1
    ensures |a * correct| >= f + 1 && a * correct != {}
  {
    assert a == a * correct + a * (voters - correct);
    SubsetCard(a * (voters - correct), voters - correct);
    assert |a| == |a * correct| + |a * (voters - correct)| by {
      UnionCard(a * correct, a * (voters - correct));
      assert a * correct * (a * (voters - correct)) == {};
    }
  }

  /** Every two quorums of 2f+1 among `voters` share a voter outside every faulty set of at most f. */
  ghost predicate QuorumsMeet<T(!new)>(voters: set<T>, f: nat) {
    forall a: set<T>, b: set<T>, faulty: set<T> ::
      a <= voters && b <= voters && |a| >= 2 * f + 1 && |b| >= 2 * f + 1 && faulty <= voters && |faulty| <= f
      ==> a * b - faulty != {}
  }

  lemma {:induction false} SubsetOfSize<T>(s: set<T>, n: nat) returns (r: set<T>)
    requires n <= |s|
    ensures r <= s && |r| == n
  {
    if n == 0 {
      r := {};
    } else {
      var x :| x in s;
      r := SubsetOfSize(s - {x}, n - 1);
      r := r + {x};
    }
  }

  /** The fixed quorum 2f+1 is safe exactly when there are at most 3f+1 distinct validators.
      Thread creation asks only for *at least* 3f+1
      replicas, so this is a condition on the replica list that the caller must keep. */
  lemma QuorumsMeetIff<T(!new)>(voters: set<T>, f: nat)
    ensures QuorumsMeet(voters, f) <==> |voters| <= 3 * f + 1
  {
    if |voters| <= 3 * f + 1 {
      forall a: set<T>, b: set<T>, faulty: set<T> |
        a <= voters && b <= voters && |a| >= 2 * f + 1 && |b| >= 2 * f + 1 && faulty <= voters && |faulty| <= f
        ensures a * b - faulty != {}
      {
        assert voters - (voters - faulty) == faulty;
        var c := CommonCorrect(voters, voters - faulty, a, b, f);
        assert c in a * b - faulty;
      }
    } else {
      var a := SubsetOfSize(voters, 2 * f + 1);
      assert |voters - a| >= f + 1;
      var outside := SubsetOfSize(voters - a, f + 1);
      var shared := SubsetOfSize(a, f);
      var b := outside + shared;
      assert |b| == 2 * f + 1;
      assert a * b == shared;
      assert a * b - shared == {};
    }
  }
}
