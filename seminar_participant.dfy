/**
 * The membership table: one row per participant who joined a seminar, and the
 * list operations the controller performs on it.
 */
module SeminarParticipants {

  /** Participant `participantId` has joined seminar `seminarId`. */
  datatype Membership = Membership(seminarId: int, participantId: string)

  /** At most one row for every (seminar, participant) pair. */
  ghost predicate Unique(ms: seq<Membership>) {
    forall i, j :: 0 <= i < j < |ms| ==> ms[i] != ms[j]
  }

  /** Every row refers to one of the seminar ids in `ids`. */
  ghost predicate RefersTo(ms: seq<Membership>, ids: set<int>) {
    forall m :: m in ms ==> m.seminarId in ids
  }

  /** Removing one row from the list: the first row equal to `m` goes and
      every other row stays. */
  function RemoveFirst(ms: seq<Membership>, m: Membership): (r: seq<Membership>)
    ensures m !in ms ==> r == ms
    ensures m in ms ==> |r| == |ms| - 1
    ensures m in ms ==> multiset(r) == multiset(ms) - multiset{m}
    ensures forall x :: x in r ==> x in ms
  {
    if ms == [] then []
    else
      assert ms == [ms[0]] + ms[1..];
      if ms[0] == m then ms[1..]
      else [ms[0]] + RemoveFirst(ms[1..], m)
  }

  /** Removing the whole range of rows of seminar `id`: those rows and only
      those go, the others keep their multiplicity. */
  function WithoutSeminar(ms: seq<Membership>, id: int): (r: seq<Membership>)
    ensures |r| <= |ms|
    ensures forall m :: m in r <==> m in ms && m.seminarId != id
    ensures forall m: Membership :: m.seminarId != id ==> multiset(r)[m] == multiset(ms)[m]
  {
    if ms == [] then []
    else
      assert ms == [ms[0]] + ms[1..];
      if ms[0].seminarId == id then WithoutSeminar(ms[1..], id)
      else [ms[0]] + WithoutSeminar(ms[1..], id)
  }

  /** Under uniqueness, a row that is present occurs exactly once. */
  lemma {:induction false} UniqueCount(ms: seq<Membership>, m: Membership)
    requires Unique(ms) && m in ms
    ensures multiset(ms)[m] == 1
  {
    assert ms == [ms[0]] + ms[1..];
    UniqueTail(ms);
    if ms[0] != m {
      UniqueCount(ms[1..], m);
    }
  }

  /** A row that is not yet in a unique list can be put in front of it. */
  lemma UniqueCons(x: Membership, ms: seq<Membership>)
    requires Unique(ms) && x !in ms
    ensures Unique([x] + ms)
  {
    forall i, j | 0 <= i < j < |[x] + ms| ensures ([x] + ms)[i] != ([x] + ms)[j] {
      if i == 0 {
        assert ([x] + ms)[j] == ms[j - 1];
      } else {
        assert ([x] + ms)[i] == ms[i - 1] && ([x] + ms)[j] == ms[j - 1];
      }
    }
  }

  /** The tail of a unique list is unique and does not hold its head. */
  lemma UniqueTail(ms: seq<Membership>)
    requires Unique(ms) && ms != []
    ensures Unique(ms[1..]) && ms[0] !in ms[1..]
  {
    forall j | 0 <= j < |ms[1..]| ensures ms[1..][j] != ms[0] {
      assert ms[0] != ms[j + 1];
    }
    forall i, j | 0 <= i < j < |ms[1..]| ensures ms[1..][i] != ms[1..][j] {
      assert ms[i + 1] != ms[j + 1];
    }
  }

  /** Removing a row keeps the rows unique, and the removed pair is gone. */
  lemma {:induction false} RemoveFirstKeepsUnique(ms: seq<Membership>, m: Membership)
    requires Unique(ms)
    ensures Unique(RemoveFirst(ms, m))
    ensures m !in RemoveFirst(ms, m)
  {
    if ms != [] {
      UniqueTail(ms);
      if ms[0] != m {
        RemoveFirstKeepsUnique(ms[1..], m);
        var rest := RemoveFirst(ms[1..], m);
        if m in ms[1..] {
          assert multiset(ms[1..])[ms[0]] == 0;
          assert multiset(rest)[ms[0]] == 0;
        }
        UniqueCons(ms[0], rest);
      }
    }
  }

  /** Removing a seminar's rows keeps the rows unique. */
  lemma {:induction false} WithoutSeminarKeepsUnique(ms: seq<Membership>, id: int)
    requires Unique(ms)
    ensures Unique(WithoutSeminar(ms, id))
  {
    if ms != [] {
      UniqueTail(ms);
      WithoutSeminarKeepsUnique(ms[1..], id);
      if ms[0].seminarId != id {
        UniqueCons(ms[0], WithoutSeminar(ms[1..], id));
      }
    }
  }

  /** Leave undoes Join: appending a new row and then removing it gives back the rows before. */
  lemma {:induction false} JoinThenLeave(ms: seq<Membership>, m: Membership)
    requires m !in ms
    ensures RemoveFirst(ms + [m], m) == ms
  {
    if ms != [] {
      assert (ms + [m])[1..] == ms[1..] + [m];
      JoinThenLeave(ms[1..], m);
    }
  }

  /** A seminar id no row refers to has nothing to cascade: removing its rows changes nothing. */
  lemma {:induction false} NothingToCascade(ms: seq<Membership>, ids: set<int>, id: int)
    requires RefersTo(ms, ids) && id !in ids
    ensures WithoutSeminar(ms, id) == ms
  {
    if ms != [] {
      assert ms[0] in ms;
      NothingToCascade(ms[1..], ids, id);
      assert ms == [ms[0]] + ms[1..];
    }
  }
}
