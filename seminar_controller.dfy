/**
 * The seminar controller as a state machine over an in-memory store: the
 * seminar table keyed by id, the membership rows, and the next key the store
 * hands out. The caller's user id is a parameter; it is "" when the request
 * carries no name-identifier claim.
 */
module Controllers {
  import opened DataAnnotations
  import opened SeminarEntity
  import opened SeminarParticipants
  import opened EditViewModel

  datatype Option<T> = None | Some(value: T)

  /** The display-name lookups the views use (user name of an organizer, name of a category). */
  datatype Names = Names(userName: string -> string, categoryName: int -> string)

  /** One line of the All and Joined lists. */
  datatype SeminarSummary = SeminarSummary(
    id: int,
    topic: string,
    lecturer: string,
    category: string,
    dateAndTime: DateTime,
    organizer: string)

  /** The Details page. */
  datatype SeminarDetails = SeminarDetails(
    id: int,
    topic: string,
    lecturer: string,
    details: string,
    duration: int,
    dateAndTime: DateTime,
    category: string,
    organizer: string)

  /** What an action answers with. */
  datatype ActionResult =
    | BadRequest
    | RedirectToAll
    | RedirectToJoined
    | AllView(listed: set<SeminarSummary>)
    | JoinedView(joined: seq<SeminarSummary>)
    | DetailsView(found: Option<SeminarDetails>)
    | EditView(form: SeminarForm)
    | DeleteView(seminar: Seminar)

  /** The list line for seminar `s`, shown under id `id`: its topic, lecturer
      and schedule, with the category and organizer replaced by their display names. */
  function Summary(id: int, s: Seminar, names: Names): (r: SeminarSummary)
    ensures r.id == id && r.topic == s.topic && r.lecturer == s.lecturer && r.dateAndTime == s.dateAndTime
    ensures r.category == names.categoryName(s.categoryId) && r.organizer == names.userName(s.organizerId)
  {
    SeminarSummary(id, s.topic, s.lecturer, names.categoryName(s.categoryId), s.dateAndTime, names.userName(s.organizerId))
  }

  /** The list line a Details page corresponds to. */
  function Brief(d: SeminarDetails): SeminarSummary {
    SeminarSummary(d.id, d.topic, d.lecturer, d.category, d.dateAndTime, d.organizer)
  }

  /** The form Edit GET fills from a stored seminar. It never sets the form's
      organizer id, so as filled it never passes validation. */
  function ToForm(s: Seminar): (f: SeminarForm)
    ensures f.organizerId == "" && !ValidForm(f)
  {
    SeminarForm(s.topic, s.lecturer, s.details, "", s.dateAndTime, s.duration, s.categoryId)
  }

  /** Edit POST's six assignments: the seminar keeps its id and its organizer. */
  function ApplyForm(s: Seminar, f: SeminarForm): (r: Seminar)
    ensures r.id == s.id && r.organizerId == s.organizerId
  {
    s.(dateAndTime := f.dateAndTime, details := f.details, topic := f.topic,
       lecturer := f.lecturer, duration := f.duration, categoryId := f.categoryId)
  }

  /** Edit GET and Edit POST are inverse: posting the form back unchanged gives
      back the seminar, and reading an edited seminar back into a form gives the
      posted form, bar the organizer id the form does not carry. */
  lemma EditRoundTrip(s: Seminar, f: SeminarForm)
    ensures ApplyForm(s, ToForm(s)) == s
    ensures ToForm(ApplyForm(s, f)) == f.(organizerId := "")
  {
  }

  /** Add's object initializer: a new seminar carrying the six posted fields,
      owned by the caller whatever organizer id the form holds, and stored under `id`. */
  function FromForm(id: int, f: SeminarForm, organizerId: string): (s: Seminar)
    ensures s.id == id && s.organizerId == organizerId
    ensures s == ApplyForm(NewSeminar().(id := id, organizerId := organizerId), f)
  {
    Seminar(id, f.topic, f.lecturer, f.details, organizerId, f.dateAndTime, f.duration, f.categoryId)
  }

  /** A valid form, copied into any seminar (a new one by Add, a stored one by
      Edit POST), meets the entity's limits exactly when the seminar's owner id
      is itself non-blank. */
  lemma ValidFormFitsEntity(s: Seminar, f: SeminarForm)
    requires ValidForm(f)
    ensures EntityValid(ApplyForm(s, f)) <==> Required(s.organizerId)
  {
  }

  /** The Joined list: one line per membership row of `caller` whose seminar
      exists, shown under the row's seminar id. */
  function JoinedRows(ms: seq<Membership>, seminars: map<int, Seminar>, caller: string, names: Names): (r: seq<SeminarSummary>)
    ensures |r| <= |ms|
    ensures forall i :: 0 <= i < |r| ==>
      r[i].id in seminars && Membership(r[i].id, caller) in ms && r[i] == Summary(r[i].id, seminars[r[i].id], names)
    ensures forall m :: m in ms && m.participantId == caller && m.seminarId in seminars ==>
      Summary(m.seminarId, seminars[m.seminarId], names) in r
  {
    if ms == [] then []
    else
      assert ms == [ms[0]] + ms[1..];
      var rest := JoinedRows(ms[1..], seminars, caller, names);
      if ms[0].participantId == caller && ms[0].seminarId in seminars
      then [Summary(ms[0].seminarId, seminars[ms[0].seminarId], names)] + rest
      else rest
  }

  /** No seminar id occurs on two lines of `r`. */
  predicate DistinctIds(r: seq<SeminarSummary>) {
    forall i, j :: 0 <= i < j < |r| ==> r[i].id != r[j].id
  }

  /** A line put in front of lines with distinct ids none of which is its own
      keeps the ids distinct. */
  lemma ConsDistinct(v: SeminarSummary, rest: seq<SeminarSummary>)
    requires DistinctIds(rest)
    requires forall w :: w in rest ==> w.id != v.id
    ensures DistinctIds([v] + rest)
  {
    var r := [v] + rest;
    forall i, j | 0 <= i < j < |r| ensures r[i].id != r[j].id {
      assert r[j] == rest[j - 1];
      if 0 < i {
        assert r[i] == rest[i - 1];
      }
    }
  }

  /** With unique rows, no seminar is listed twice on the Joined page. */
  lemma {:induction false} JoinedListsEachSeminarOnce(ms: seq<Membership>, seminars: map<int, Seminar>, caller: string, names: Names)
    requires Unique(ms)
    ensures DistinctIds(JoinedRows(ms, seminars, caller, names))
  {
    if ms != [] {
      UniqueTail(ms);
      JoinedListsEachSeminarOnce(ms[1..], seminars, caller, names);
      var rest := JoinedRows(ms[1..], seminars, caller, names);
      if ms[0].participantId == caller && ms[0].seminarId in seminars {
        var v := Summary(ms[0].seminarId, seminars[ms[0].seminarId], names);
        forall w | w in rest ensures w.id != v.id {
          assert Membership(w.id, caller) in ms[1..];
        }
        ConsDistinct(v, rest);
        assert JoinedRows(ms, seminars, caller, names) == [v] + rest;
      }
    }
  }

  /** The All list's lines, one per stored seminar, shown under its own id. */
  function AllLines(seminars: map<int, Seminar>, names: Names): (r: set<SeminarSummary>)
    ensures forall k :: k in seminars ==> Summary(seminars[k].id, seminars[k], names) in r
    ensures (forall k :: k in seminars ==> seminars[k].id == k) ==>
      forall v :: v in r ==> v.id in seminars && v == Summary(v.id, seminars[v.id], names)
    ensures seminars == map[] ==> r == {}
  {
    set k | k in seminars :: Summary(seminars[k].id, seminars[k], names)
  }

  /** The keys of the table below `n`. */
  function KeysBelow(seminars: map<int, Seminar>, n: int): set<int> {
    set k | k in seminars && k < n
  }

  /** The All lines of the seminars stored under keys below `n`. */
  function LinesBelow(seminars: map<int, Seminar>, names: Names, n: int): set<SeminarSummary> {
    set k | k in seminars && k < n :: Summary(seminars[k].id, seminars[k], names)
  }

  /** Raising the bound past a stored key adds that key and its line, which is new. */
  lemma BelowStepPresent(seminars: map<int, Seminar>, names: Names, k: int)
    requires forall j :: j in seminars ==> seminars[j].id == j
    requires k in seminars
    ensures LinesBelow(seminars, names, k + 1) == LinesBelow(seminars, names, k) + {Summary(k, seminars[k], names)}
    ensures Summary(k, seminars[k], names) !in LinesBelow(seminars, names, k)
    ensures KeysBelow(seminars, k + 1) == KeysBelow(seminars, k) + {k}
  {
  }

  /** Raising the bound past an absent key changes nothing. */
  lemma BelowStepAbsent(seminars: map<int, Seminar>, names: Names, k: int)
    requires k !in seminars
    ensures LinesBelow(seminars, names, k + 1) == LinesBelow(seminars, names, k)
    ensures KeysBelow(seminars, k + 1) == KeysBelow(seminars, k)
  {
  }

  /** Below any bound, there are as many lines as keys, when every seminar is
      stored under its own positive id. */
  lemma {:induction false} LinesBelowCount(seminars: map<int, Seminar>, names: Names, n: int)
    requires forall k :: k in seminars ==> seminars[k].id == k && 0 < k
    requires n >= 1
    ensures |LinesBelow(seminars, names, n)| == |KeysBelow(seminars, n)|
    decreases n
  {
    if n == 1 {
      assert KeysBelow(seminars, n) == {};
      assert LinesBelow(seminars, names, n) == {};
    } else {
      LinesBelowCount(seminars, names, n - 1);
      if n - 1 in seminars {
        BelowStepPresent(seminars, names, n - 1);
      } else {
        BelowStepAbsent(seminars, names, n - 1);
      }
    }
  }

  /** The All list has one line per seminar when every seminar is stored
      under its own id, 0 < id < bound. */
  lemma AllSummaryCount(seminars: map<int, Seminar>, names: Names, bound: int)
    requires 0 < bound
    requires forall k :: k in seminars ==> seminars[k].id == k && 0 < k < bound
    ensures |AllLines(seminars, names)| == |seminars|
  {
    LinesBelowCount(seminars, names, bound);
    assert LinesBelow(seminars, names, bound) == AllLines(seminars, names);
    assert KeysBelow(seminars, bound) == seminars.Keys;
  }

  class SeminarController {
    var seminars: map<int, Seminar>
    var memberships: seq<Membership>
    var nextId: int

    /** Every seminar is stored under its own id, below the next key; the rows
        are unique per pair and refer to existing seminars only. */
    ghost predicate Valid()
      reads this
      ensures Valid() ==> nextId !in seminars && RefersTo(memberships, seminars.Keys)
    {
      && 0 < nextId
      && (forall k :: k in seminars ==> seminars[k].id == k && 0 < k < nextId)
      && Unique(memberships)
      && RefersTo(memberships, seminars.Keys)
    }

    /** An empty store whose first key is 1. */
    constructor ()
      ensures Valid()
      ensures seminars == map[] && memberships == [] && nextId == 1
    {
      seminars := map[];
      memberships := [];
      nextId := 1;
    }

    /** All: every stored seminar appears in the list, and only those. */
    function All(names: Names): (r: ActionResult)
      reads this
      requires Valid()
      ensures r.AllView?
      ensures forall k :: k in seminars ==> Summary(k, seminars[k], names) in r.listed
      ensures forall v :: v in r.listed ==> v.id in seminars && v == Summary(v.id, seminars[v.id], names)
    {
      AllView(AllLines(seminars, names))
    }

    /** The All list has exactly as many lines as there are seminars. */
    lemma AllListsEachSeminarOnce(names: Names)
      requires Valid()
      ensures |All(names).listed| == |seminars|
    {
      AllSummaryCount(seminars, names, nextId);
    }

    /** Joined: exactly the seminars the caller has a row for, and nothing when there are none. */
    function Joined(caller: string, names: Names): (r: ActionResult)
      reads this
      ensures r.JoinedView?
      ensures forall v :: v in r.joined ==>
        v.id in seminars && Membership(v.id, caller) in memberships && v == Summary(v.id, seminars[v.id], names)
      ensures forall k :: k in seminars && Membership(k, caller) in memberships ==>
        Summary(k, seminars[k], names) in r.joined
      ensures (forall m :: m in memberships ==> m.participantId != caller) ==> r.joined == []
    {
      var rows := JoinedRows(memberships, seminars, caller, names);
      assert rows != [] ==> rows[0] in rows;
      JoinedView(rows)
    }

    /** Every seminar on the caller's Joined list is also on the All list. */
    lemma JoinedWithinAll(caller: string, names: Names)
      requires Valid()
      ensures forall v :: v in Joined(caller, names).joined ==> v in All(names).listed
    {
    }

    /** Details: a page for an existing id, none (a view without a model) otherwise. */
    function Details(id: int, names: Names): (r: ActionResult)
      reads this
      requires Valid()
      ensures r.DetailsView?
      ensures r.found.Some? <==> id in seminars
      ensures r.found.Some? ==> Brief(r.found.value) == Summary(id, seminars[id], names)
      ensures r.found.Some? ==> r.found.value.details == seminars[id].details && r.found.value.duration == seminars[id].duration
    {
      if id in seminars then
        var s := seminars[id];
        DetailsView(Some(SeminarDetails(s.id, s.topic, s.lecturer, s.details, s.duration, s.dateAndTime,
                                        names.categoryName(s.categoryId), names.userName(s.organizerId))))
      else
        DetailsView(None)
    }

    /** The Details page of a seminar shows the same line the All list shows for it. */
    lemma DetailsAgreeWithAll(id: int, names: Names)
      requires Valid() && id in seminars
      ensures Details(id, names).found.Some?
      ensures Brief(Details(id, names).found.value) in All(names).listed
    {
    }

    /** Add GET: a blank form, which does not pass validation until it is filled in. */
    function AddForm(): (r: ActionResult)
      ensures r.EditView? && !ValidForm(r.form)
    {
      EditView(SeminarForm("", "", "", "", DateTime(0), 0, 0))
    }

    /** Edit GET: the stored fields, and only for the seminar's organizer. */
    function EditForm(id: int, caller: string): (r: ActionResult)
      reads this
      ensures r.EditView? || r == BadRequest
      ensures r.EditView? <==> id in seminars && seminars[id].organizerId == caller
      ensures r.EditView? ==> ApplyForm(seminars[id], r.form) == seminars[id]
      ensures r.EditView? ==> r.form.organizerId == "" && !ValidForm(r.form)
    {
      if id !in seminars then BadRequest
      else if seminars[id].organizerId != caller then BadRequest
      else EditView(ToForm(seminars[id]))
    }

    /** Delete GET: the stored seminar for an existing id, whoever asks. */
    function Delete(id: int): (r: ActionResult)
      reads this
      ensures r.DeleteView? <==> id in seminars
      ensures !r.DeleteView? ==> r == BadRequest
      ensures r.DeleteView? ==> r.seminar == seminars[id]
    {
      if id in seminars then DeleteView(seminars[id]) else BadRequest
    }

    /** Join: unknown seminar is a bad request; an existing row is left alone;
        otherwise exactly the row (id, caller) is appended. Afterwards an
        existing seminar has exactly one row for the caller. */
    method Join(id: int, caller: string) returns (r: ActionResult)
      requires Valid()
      modifies this
      ensures Valid()
      ensures seminars == old(seminars) && nextId == old(nextId)
      ensures id !in old(seminars) ==> r == BadRequest && memberships == old(memberships)
      ensures id in old(seminars) ==> r == RedirectToJoined
      ensures id in old(seminars) && Membership(id, caller) in old(memberships) ==> memberships == old(memberships)
      ensures id in old(seminars) && Membership(id, caller) !in old(memberships) ==>
        memberships == old(memberships) + [Membership(id, caller)]
      ensures id in seminars ==> multiset(memberships)[Membership(id, caller)] == 1
    {
      if id !in seminars {
        return BadRequest;
      }
      var row := Membership(id, caller);
      if row in memberships {
        UniqueCount(memberships, row);
        return RedirectToJoined;
      }
      memberships := memberships + [row];
      return RedirectToJoined;
    }

    /** Leave: unknown seminar or no row for the caller is a bad request;
        otherwise the caller's row goes and every other row stays. */
    method Leave(id: int, caller: string) returns (r: ActionResult)
      requires Valid()
      modifies this
      ensures Valid()
      ensures seminars == old(seminars) && nextId == old(nextId)
      ensures id !in old(seminars) || Membership(id, caller) !in old(memberships) ==>
        r == BadRequest && memberships == old(memberships)
      ensures id in old(seminars) && Membership(id, caller) in old(memberships) ==>
        r == RedirectToAll && memberships == RemoveFirst(old(memberships), Membership(id, caller))
      ensures Membership(id, caller) !in memberships
      ensures forall m :: m != Membership(id, caller) ==> multiset(memberships)[m] == multiset(old(memberships))[m]
    {
      if id !in seminars {
        return BadRequest;
      }
      var row := Membership(id, caller);
      if row !in memberships {
        return BadRequest;
      }
      RemoveFirstKeepsUnique(memberships, row);
      var rest := RemoveFirst(memberships, row);
      assert RefersTo(rest, seminars.Keys) by {
        forall m | m in rest ensures m.seminarId in seminars {
          assert m in memberships;
        }
      }
      memberships := rest;
      return RedirectToAll;
    }

    /** Add POST: stores a new seminar under a fresh key with the six posted
        fields, owned by the caller, without consulting validation. Nothing
        else changes and the new seminar has no members yet. */
    method Add(caller: string, f: SeminarForm) returns (r: ActionResult)
      requires Valid()
      modifies this
      ensures Valid()
      ensures r == RedirectToAll
      ensures old(nextId) !in old(seminars)
      ensures seminars == old(seminars)[old(nextId) := FromForm(old(nextId), f, caller)]
      ensures memberships == old(memberships) && nextId == old(nextId) + 1
      ensures forall m :: m in memberships ==> m.seminarId != old(nextId)
      ensures ValidForm(f) && Required(caller) ==> EntityValid(seminars[old(nextId)])
    {
      var id := nextId;
      seminars := seminars[id := FromForm(id, f, caller)];
      nextId := nextId + 1;
      if ValidForm(f) {
        ValidFormFitsEntity(NewSeminar().(id := id, organizerId := caller), f);
      }
      return RedirectToAll;
    }

    /** Edit POST: unknown seminar or a caller who is not its organizer is a bad
        request; otherwise exactly the six form fields are overwritten. Ids,
        organizers and memberships never change. */
    method Edit(id: int, caller: string, f: SeminarForm) returns (r: ActionResult)
      requires Valid()
      modifies this
      ensures Valid()
      ensures memberships == old(memberships) && nextId == old(nextId)
      ensures !(id in old(seminars) && old(seminars)[id].organizerId == caller) ==>
        r == BadRequest && seminars == old(seminars)
      ensures id in old(seminars) && old(seminars)[id].organizerId == caller ==>
        r == RedirectToAll && seminars == old(seminars)[id := ApplyForm(old(seminars)[id], f)]
      ensures seminars.Keys == old(seminars).Keys
      ensures forall k :: k in seminars ==> seminars[k].organizerId == old(seminars)[k].organizerId
      ensures r == RedirectToAll && ValidForm(f) && Required(caller) ==> EntityValid(seminars[id])
    {
      if id !in seminars {
        return BadRequest;
      }
      var s := seminars[id];
      if s.organizerId != caller {
        return BadRequest;
      }
      seminars := seminars[id := ApplyForm(s, f)];
      if ValidForm(f) {
        ValidFormFitsEntity(s, f);
      }
      return RedirectToAll;
    }

    /** DeleteConfirmed: for an existing id, every row of that seminar goes and
        then the seminar; a missing id changes nothing. No ownership check. */
    method DeleteConfirmed(id: int) returns (r: ActionResult)
      requires Valid()
      modifies this
      ensures Valid()
      ensures r == RedirectToAll && nextId == old(nextId)
      ensures id !in old(seminars) ==> seminars == old(seminars) && memberships == old(memberships)
      ensures id in old(seminars) ==>
        seminars == old(seminars) - {id} && memberships == WithoutSeminar(old(memberships), id)
      ensures id !in seminars && forall m :: m in memberships ==> m.seminarId != id
    {
      if id in seminars {
        WithoutSeminarKeepsUnique(memberships, id);
        memberships := WithoutSeminar(memberships, id);
        seminars := seminars - {id};
      }
      return RedirectToAll;
    }
  }

  /** Organizer A creates "Intro to Graphs"; participant B joins it, joins
      again, and finds it on the Joined list; A deletes it; B's list is then
      empty and its Details page has no seminar. */
  method GraphsSeminarScenario(names: Names) returns (rowsAfterJoins: nat, joinedBefore: seq<SeminarSummary>,
                                                      joinedAfter: seq<SeminarSummary>, details: ActionResult)
    ensures rowsAfterJoins == 1
    ensures |joinedBefore| == 1 && joinedBefore[0].topic == "Intro to Graphs"
    ensures joinedAfter == []
    ensures details == DetailsView(None)
  {
    var store := new SeminarController();
    var form := SeminarForm("Intro to Graphs", "Ada Lovelace", "Paths, trees and cycles.", "", DateTime(0), 60, 1);
    var x := store.nextId;
    var _ := store.Add("A", form);
    var _ := store.Join(x, "B");
    var _ := store.Join(x, "B");
    rowsAfterJoins := |store.memberships|;
    var before := store.Joined("B", names);
    joinedBefore := before.joined;
    var _ := store.DeleteConfirmed(x);
    var after := store.Joined("B", names);
    joinedAfter := after.joined;
    details := store.Details(x, names);
  }
}
