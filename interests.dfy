/**
 * The interest-chip lists of the profile and registration forms: an
 * interest is toggled in or out of a selection
 * (src/pages/Auth/RegisterForm.tsx, src/pages/Student/EditProfile.tsx),
 * or added once and removed everywhere
 * (src/components/StudentProfile/EditProfile.tsx).
 */
module Interests {
  import Seqs

  /** `prev.includes(v) ? prev.filter((i) => i !== v) : [...prev, v]` */
  function Toggle(prev: seq<string>, v: string): (r: seq<string>)
    ensures v in prev ==> r == Seqs.RemoveAll(prev, v)
    ensures v !in prev ==> r == prev + [v]
    ensures v in r <==> v !in prev
  {
    if v in prev then Seqs.RemoveAll(prev, v) else prev + [v]
  }

  /** The other interests keep their relative order: dropping `v` from both sides gives the same list. */
  lemma ToggleKeepsOthers(prev: seq<string>, v: string)
    ensures Seqs.RemoveAll(Toggle(prev, v), v) == Seqs.RemoveAll(prev, v)
  {
    if v !in prev {
      Seqs.RemoveAllAppend(prev, [v], v);
      assert prev + [] == prev;
    }
  }

  /** Toggling twice restores membership of every interest, though not necessarily its position. */
  lemma ToggleTwice(prev: seq<string>, v: string)
    ensures forall x :: x in Toggle(Toggle(prev, v), v) <==> x in prev
  {
    var once := Toggle(prev, v);
    if v in prev {
      assert once == Seqs.RemoveAll(prev, v);
      assert Toggle(once, v) == once + [v];
      forall x | x in prev
        ensures x in once + [v]
      {
        var i :| 0 <= i < |prev| && prev[i] == x;
      }
    } else {
      assert Toggle(once, v) == Seqs.RemoveAll(prev + [v], v);
      forall x | x in prev
        ensures x in Seqs.RemoveAll(prev + [v], v)
      {
        var i :| 0 <= i < |prev| && prev[i] == x;
        assert (prev + [v])[i] == x;
      }
    }
  }

  /** Toggling an absent interest and toggling it again gives the original list back. */
  lemma ToggleAbsentTwice(prev: seq<string>, v: string)
    requires v !in prev
    ensures Toggle(Toggle(prev, v), v) == prev
  {
    RemoveAddedRestores(prev, v);
  }

  /** A toggle keeps a duplicate-free list duplicate-free. */
  lemma ToggleKeepsNoDuplicates(prev: seq<string>, v: string)
    requires Seqs.NoDuplicates(prev)
    ensures Seqs.NoDuplicates(Toggle(prev, v))
  {
    if v in prev {
      SubsequenceKeepsNoDuplicates(Seqs.RemoveAll(prev, v), prev);
    }
  }

  /**
   * `handleAddInteres` on the list: the trimmed input `v` is appended
   * unless it is already there. The caller has already rejected an empty
   * `v`.
   */
  function AddUnique(prev: seq<string>, v: string): (r: seq<string>)
    ensures v in prev ==> r == prev
    ensures v !in prev ==> r == prev + [v]
    ensures v in r
  {
    if v in prev then prev else prev + [v]
  }

  /** Adding never creates a duplicate. */
  lemma AddKeepsNoDuplicates(prev: seq<string>, v: string)
    requires Seqs.NoDuplicates(prev)
    ensures Seqs.NoDuplicates(AddUnique(prev, v))
  {
  }

  /** Removing a value that was just added gives the list back. */
  lemma {:induction false} RemoveAddedRestores(prev: seq<string>, v: string)
    requires v !in prev
    ensures Seqs.RemoveAll(AddUnique(prev, v), v) == prev
  {
    Seqs.RemoveAllAppend(prev, [v], v);
    assert prev + [] == prev;
  }

  /** A subsequence of a duplicate-free list is duplicate-free. */
  lemma {:induction false} SubsequenceKeepsNoDuplicates(r: seq<string>, s: seq<string>)
    requires Seqs.IsSubsequence(r, s) && Seqs.NoDuplicates(s)
    ensures Seqs.NoDuplicates(r)
    decreases |s|
  {
    if |r| == 0 {
    } else if r[0] == s[0] && Seqs.IsSubsequence(r[1..], s[1..]) {
      SubsequenceKeepsNoDuplicates(r[1..], s[1..]);
      SubsequenceMembers(r[1..], s[1..]);
      assert s[0] !in s[1..];
      forall i, j | 0 <= i < j < |r|
        ensures r[i] != r[j]
      {
        if i == 0 {
          assert r[j] == r[1..][j - 1];
        } else {
          assert r[i] == r[1..][i - 1] && r[j] == r[1..][j - 1];
        }
      }
    } else {
      SubsequenceKeepsNoDuplicates(r, s[1..]);
    }
  }

  /** Every element of a subsequence is an element of the sequence. */
  lemma {:induction false} SubsequenceMembers(r: seq<string>, s: seq<string>)
    requires Seqs.IsSubsequence(r, s)
    ensures forall x :: x in r ==> x in s
    decreases |s|
  {
    if |r| == 0 {
    } else if r[0] == s[0] && Seqs.IsSubsequence(r[1..], s[1..]) {
      SubsequenceMembers(r[1..], s[1..]);
      assert forall x :: x in r ==> x == r[0] || x in r[1..];
    } else {
      SubsequenceMembers(r, s[1..]);
    }
  }
}
