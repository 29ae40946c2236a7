/**
  The top-ten table and what `updateHighScores` does to it.

  The table is scanned from the bottom entry up, so the entry the new score
  takes is the FIRST (highest) one it beats. Entries from there down shift one
  place, the last one drops off, and the new score takes the freed place,
  which keeps the initials of the entry that was there until the player
  enters new ones.
*/
module HighScores {
  datatype Score = Score(score: int, initials: string)

  /** The index of the first entry `s` beats, or `|t|` when it beats none. */
  function FirstBelow(t: seq<Score>, s: int): (k: nat)
    ensures k <= |t|
    ensures k < |t| ==> s > t[k].score
  {
    if t == [] then 0
    else if s > t[0].score then 0
    else 1 + FirstBelow(t[1..], s)
  }

  /** Every entry above the place the score takes is at least the score:
      the scan stops at the first entry the score beats. */
  lemma {:induction false} FirstBelowIsFirst(t: seq<Score>, s: int)
    ensures forall j :: 0 <= j < FirstBelow(t, s) ==> s <= t[j].score
  {
    if t != [] && s <= t[0].score {
      FirstBelowIsFirst(t[1..], s);
      forall j | 1 <= j < FirstBelow(t, s)
        ensures s <= t[j].score
      {
        assert t[j] == t[1..][j - 1];
      }
    }
  }

  /** The score earns a place in the table. */
  predicate Beats(t: seq<Score>, s: int)
  {
    FirstBelow(t, s) < |t|
  }

  /** The table with `s` placed at `k`: entries from `k` on move down one place
      and the last entry drops off; the new entry keeps the initials of the one
      it displaces. */
  function Inserted(t: seq<Score>, k: nat, s: int): (r: seq<Score>)
    requires k < |t|
    ensures |r| == |t|
    ensures forall j :: 0 <= j < k ==> r[j] == t[j]
    ensures r[k] == Score(s, t[k].initials)
    ensures forall j :: k < j < |t| ==> r[j] == t[j - 1]
  {
    t[..k] + [Score(s, t[k].initials)] + t[k..|t| - 1]
  }

  /** The table after `updateHighScores` with the final score `s`. */
  function UpdatedTable(t: seq<Score>, s: int): seq<Score>
  {
    if Beats(t, s) then Inserted(t, FirstBelow(t, s), s) else t
  }

  /** Scores in non-increasing order, best first. */
  predicate NonIncreasing(t: seq<Score>)
  {
    forall i, j :: 0 <= i < j < |t| ==> t[i].score >= t[j].score
  }

  // ---------------------------------------------------------------------
  // Properties

  /** The score earns a place exactly when it is higher than some entry, and
      the place it takes is the only index where it is higher than that entry
      and no higher than every entry above. */
  lemma BeatsIffSomeEntryLower(t: seq<Score>, s: int)
    ensures Beats(t, s) <==> exists i :: 0 <= i < |t| && s > t[i].score
    ensures forall k :: 0 <= k < |t| && s > t[k].score && (forall j :: 0 <= j < k ==> s <= t[j].score)
                        ==> k == FirstBelow(t, s)
  {
    FirstBelowIsFirst(t, s);
  }

  /** On a table in order, a score earns a place exactly when it beats the
      last entry. */
  lemma {:induction false} SortedBeatsIffBeatsLast(t: seq<Score>, s: int)
    requires NonIncreasing(t) && |t| > 0
    ensures Beats(t, s) <==> s > t[|t| - 1].score
  {
    FirstBelowIsFirst(t, s);
    if Beats(t, s) {
      var k := FirstBelow(t, s);
      assert t[k].score >= t[|t| - 1].score by {
        if k < |t| - 1 {
          assert 0 <= k < |t| - 1 < |t|;
        }
      }
    }
  }

  /** Placing a score keeps the table in order. */
  lemma InsertedKeepsOrder(t: seq<Score>, s: int)
    requires NonIncreasing(t)
    ensures NonIncreasing(UpdatedTable(t, s))
  {
    if Beats(t, s) {
      FirstBelowIsFirst(t, s);
      var k := FirstBelow(t, s);
      var r := Inserted(t, k, s);
      forall i, j | 0 <= i < j < |r|
        ensures r[i].score >= r[j].score
      {
        if j > k {
          assert t[j - 1].score < s by {
            assert t[k].score >= t[j - 1].score;
          }
        }
      }
    }
  }

  /** Placing a score keeps the table's size, puts the score at its place, and
      taking the new entry back out leaves the old table without its last
      entry: nothing else is lost, reordered or duplicated. */
  lemma InsertedDropsOnlyLast(t: seq<Score>, s: int)
    requires Beats(t, s)
    ensures var k := FirstBelow(t, s);
            var r := UpdatedTable(t, s);
            |r| == |t| && r[k].score == s
            && r[..k] + r[k + 1..] == t[..|t| - 1]
            && multiset(r) == multiset(t[..|t| - 1]) + multiset{Score(s, t[k].initials)}
  {
    var k := FirstBelow(t, s);
    var r := Inserted(t, k, s);
    assert r[..k] == t[..k];
    assert r[k + 1..] == t[k..|t| - 1];
    assert t[..|t| - 1] == t[..k] + t[k..|t| - 1];
    assert r == r[..k] + [r[k]] + r[k + 1..];
  }

  /** A score that earns no place leaves the table as it was, and no entry of
      the table is below it. */
  lemma NoPlaceNoChange(t: seq<Score>, s: int)
    requires !Beats(t, s)
    ensures UpdatedTable(t, s) == t
    ensures forall i :: 0 <= i < |t| ==> t[i].score >= s
  {
    FirstBelowIsFirst(t, s);
  }
}
