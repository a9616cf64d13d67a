/** Membership of a tenant: the graph of statuses, the two kinds of signed record that move along it, and what every
    history they write looks like. */
module Membership {
  import opened Options

  datatype Status = Invited | Pending | Active | Blocked | Removed

  /** The edges; None stands for no row yet. */
  function Edges(from: Option<Status>): set<Status> {
    match from
    case None => {Invited, Pending, Removed}
    case Some(Invited) => {Invited, Pending, Removed}
    case Some(Pending) => {Pending, Active, Blocked, Removed}
    case Some(Active) => {Active, Removed}
    case Some(Blocked) => {Blocked, Removed}
    case Some(Removed) => {Removed, Invited, Pending}
  }

  /** The founder of a tenant, who has nobody to verify them, starts active. */
  predicate TransitionOk(from: Option<Status>, to: Status, bootstrap: bool) {
    (from.None? && bootstrap && to.Active?) || to in Edges(from)
  }

  /** The graph read from its far end: which status may be reached from where. Removal is open to everybody. */
  predicate Reachable(from: Option<Status>, to: Status) {
    match to
    case Invited => from in {None, Some(Invited), Some(Removed)}
    case Pending => from in {None, Some(Invited), Some(Pending), Some(Removed)}
    case Active => from in {Some(Pending), Some(Active)}
    case Blocked => from in {Some(Pending), Some(Blocked)}
    case Removed => true
  }

  lemma EdgesFromBothEnds(from: Option<Status>, to: Status)
    ensures to in Edges(from) <==> Reachable(from, to)
  {
    if from.Some? {
      match from.value
      case Invited =>
      case Pending =>
      case Active =>
      case Blocked =>
      case Removed =>
    }
  }

  // ------------------------------------------------------------------ histories

  /** A history of one user's row that walks the graph; only its first step may be the founder's. */
  predicate IsPath(h: seq<Status>) {
    && (h != [] ==> TransitionOk(None, h[0], true))
    && forall k :: 0 < k < |h| ==> h[k] in Edges(Some(h[k - 1]))
  }

  /** A path starts anywhere but blocked, and every further step reaches its status from the one before. */
  lemma PathsByReach(h: seq<Status>)
    ensures IsPath(h) <==>
      && (h != [] ==> h[0] != Blocked)
      && forall k :: 0 < k < |h| ==> Reachable(Some(h[k - 1]), h[k])
  {
    forall k | 0 < k < |h| ensures h[k] in Edges(Some(h[k - 1])) <==> Reachable(Some(h[k - 1]), h[k]) {
      EdgesFromBothEnds(Some(h[k - 1]), h[k]);
    }
  }

  /** A path whose user is not the founder: it does not start active. */
  predicate NotFounder(h: seq<Status>) {
    h != [] ==> !h[0].Active?
  }

  /** Becoming active: only from pending verification, unless it is the founder's first step. */
  lemma ActiveOnlyFromPending(h: seq<Status>, k: nat)
    requires IsPath(h) && k < |h| && h[k].Active? && (k == 0 || !h[k - 1].Active?)
    ensures k > 0 ==> h[k - 1].Pending?
    ensures NotFounder(h) ==> k > 0
  {
  }

  /** Active is only reached through a pending verification after anything else. */
  lemma {:induction false} ActiveNeedsPending(h: seq<Status>, r: nat, j: nat) returns (p: nat)
    requires IsPath(h) && r < j < |h| && h[j].Active? && !h[r].Active? && !h[r].Pending?
    ensures r < p < j && h[p].Pending?
  {
    if h[j - 1].Active? {
      p := ActiveNeedsPending(h, r, j - 1);
    } else {
      ActiveOnlyFromPending(h, j);
      p := j - 1;
    }
  }

  /** Between a blocked and a later active there is a removed, and after it a pending verification. */
  lemma {:induction false} BlockedToActive(h: seq<Status>, i: nat, j: nat) returns (r: nat, p: nat)
    requires IsPath(h) && i < j < |h| && h[i].Blocked? && h[j].Active?
    ensures i < r < p < j && h[r].Removed? && h[p].Pending?
    decreases j - i
  {
    assert h[i + 1] in Edges(Some(h[i]));
    if h[i + 1].Removed? {
      r := i + 1;
      p := ActiveNeedsPending(h, r, j);
    } else {
      r, p := BlockedToActive(h, i + 1, j);
    }
  }

  // ------------------------------------------------------------------ applying records

  /** The records that move membership, as parsed: a user or a status that is not one is refused as a shape. */
  datatype Record =
    | MembershipStatus(user: Option<nat>, status: Option<Status>)
    | MemberRemoval(user: Option<nat>)

  datatype Applied = RefusedShape | NotAdmin | RefusedTransition | StoreDenied | Wrote(user: nat, status: Status)

  /** The database's answers to one record: they may be anything. `accepts` is whether it takes the projection. */
  datatype Answers = Answers(isAdmin: bool, mayFile: bool, accepts: bool)

  /** A record names a user, and a status record a status. */
  predicate IsShaped(r: Record) {
    r.user.Some? && (r.MembershipStatus? ==> r.status.Some?)
  }

  /** The founder's one case: his own first row, straight to active, which the database lets him file. */
  predicate IsFounding(r: Record, author: nat, row: map<nat, Status>, db: Answers) {
    && r.MembershipStatus? && r.user == Some(author) && r.status == Some(Active)
    && author !in row && db.mayFile && !db.isAdmin
  }

  /** The step the record asks for; a removal is asked for as such. */
  predicate IsAllowed(r: Record, author: nat, row: map<nat, Status>, db: Answers)
    requires IsShaped(r)
  {
    IsFounding(r, author, row, db) || r.MemberRemoval? || Reachable(RowOf(row, r.user.value), r.status.value)
  }

  /** What a record comes to, from the record, its author, the rows and the database's answers alone. */
  predicate ComesTo(out: Applied, r: Record, author: nat, row: map<nat, Status>, db: Answers) {
    if !IsShaped(r) then out == RefusedShape
    else if !db.isAdmin && !IsFounding(r, author, row, db) then out == NotAdmin
    else if !IsAllowed(r, author, row, db) then out == RefusedTransition
    else if !db.accepts then out == StoreDenied
    else out == Wrote(r.user.value, if r.MemberRemoval? then Removed else r.status.value)
  }

  /** Everything ever written to one user's row. */
  function HistoryOf(written: seq<(nat, Status)>, u: nat): seq<Status> {
    if written == [] then []
    else if written[|written| - 1].0 == u then HistoryOf(written[..|written| - 1], u) + [written[|written| - 1].1]
    else HistoryOf(written[..|written| - 1], u)
  }

  predicate RowIs(row: map<nat, Status>, u: nat, h: seq<Status>) {
    if u in row then h != [] && h[|h| - 1] == row[u] else h == []
  }

  function RowOf(row: map<nat, Status>, u: nat): Option<Status> {
    if u in row then Some(row[u]) else None
  }

  lemma {:induction false} HistoryGrows(written: seq<(nat, Status)>, u: nat, s: Status, w: nat)
    ensures HistoryOf(written + [(u, s)], w) == HistoryOf(written, w) + (if u == w then [s] else [])
  {
    assert (written + [(u, s)])[..|written|] == written;
  }

  /** One more step along the graph, the founder's only where there was nothing. */
  lemma PathGrows(row: map<nat, Status>, u: nat, h: seq<Status>, s: Status, bootstrap: bool)
    requires IsPath(h) && RowIs(row, u, h) && TransitionOk(RowOf(row, u), s, bootstrap)
    ensures IsPath(h + [s])
    ensures bootstrap && s.Active? && RowOf(row, u).None? ==> h == []
  {
    if h != [] {
      assert (h + [s])[|h| - 1] == row[u];
    }
  }

  /** A user's row is the end of his history, the history is a path, and it starts active for a founder only. */
  predicate HistoryHolds(row: map<nat, Status>, written: seq<(nat, Status)>, founders: set<nat>, u: nat) {
    var h := HistoryOf(written, u);
    RowIs(row, u, h) && IsPath(h) && (h != [] && h[0].Active? ==> u in founders)
  }

  lemma {:induction false} StepHolds(row: map<nat, Status>, written: seq<(nat, Status)>, founders: set<nat>, u: nat,
      s: Status, founder: bool, w: nat)
    requires HistoryHolds(row, written, founders, w) && TransitionOk(RowOf(row, u), s, founder)
    ensures HistoryHolds(row[u := s], written + [(u, s)], founders + (if founder then {u} else {}), w)
  {
    HistoryGrows(written, u, s, w);
    if w == u {
      PathGrows(row, u, HistoryOf(written, u), s, founder);
    }
  }

  /** One tenant's membership rows, and, for the proof, all that was written to them and the users the founder's rule
      made active. */
  class Members {
    var row: map<nat, Status>
    ghost var written: seq<(nat, Status)>
    ghost var founders: set<nat>

    ghost predicate Valid()
      reads this
    {
      forall u: nat :: HistoryHolds(row, written, founders, u)
    }

    constructor ()
      ensures Valid() && row == map[] && written == [] && founders == {}
    {
      row := map[];
      written := [];
      founders := {};
    }

    /** The projection: the row changes with its history. */
    method Project(u: nat, s: Status, ghost founder: bool)
      requires Valid() && TransitionOk(RowOf(row, u), s, founder)
      modifies this
      ensures Valid() && row == old(row)[u := s] && written == old(written) + [(u, s)]
      ensures founders == old(founders) + (if founder then {u} else {})
    {
      ghost var rows, all, made := row[u := s], written + [(u, s)], founders + (if founder then {u} else {});
      forall w: nat ensures HistoryHolds(rows, all, made, w) {
        StepHolds(row, written, founders, u, s, founder, w);
      }
      row := row[u := s];
      written := all;
      founders := made;
    }

    /** The membership arms of `applyRecord`, under any answers of the database: every history stays a path. */
    method ApplyRecord(r: Record, author: nat, db: Answers) returns (out: Applied)
      requires Valid()
      modifies this
      ensures Valid() && ComesTo(out, r, author, old(row), db)
      ensures out.Wrote? ==>
        row == old(row)[out.user := out.status] && written == old(written) + [(out.user, out.status)]
      ensures !out.Wrote? ==> row == old(row) && written == old(written) && founders == old(founders)
      ensures founders != old(founders) ==>
        && out == Wrote(author, Active) && author !in old(row)
        && founders == old(founders) + {author} && !db.isAdmin && db.mayFile
      ensures out.Wrote? && !db.isAdmin ==> author in founders
    {
      match r
      case MembershipStatus(user, status) =>
        if user.None? || status.None? {
          return RefusedShape;
        }
        var founder := !db.isAdmin && status.value.Active? && user.value == author && author !in row && db.mayFile;
        if !db.isAdmin && !founder {
          return NotAdmin;
        }
        EdgesFromBothEnds(RowOf(row, user.value), status.value);
        if !TransitionOk(RowOf(row, user.value), status.value, founder) {
          return RefusedTransition;
        }
        if !db.accepts {
          return StoreDenied;
        }
        Project(user.value, status.value, founder);
        out := Wrote(user.value, status.value);
      case MemberRemoval(user) =>
        if user.None? {
          return RefusedShape;
        }
        if !db.isAdmin {
          return NotAdmin;
        }
        if !db.accepts {
          return StoreDenied;
        }
        Project(user.value, Removed, false);
        out := Wrote(user.value, Removed);
    }

    /** A whole run of records by any authors under any answers. */
    method Run(records: seq<(Record, nat, Answers)>)
      requires Valid()
      modifies this
      ensures Valid()
      ensures forall u: nat :: old(HistoryOf(written, u)) <= HistoryOf(written, u)
    {
      for k := 0 to |records|
        invariant Valid()
        invariant forall u: nat :: old(HistoryOf(written, u)) <= HistoryOf(written, u)
      {
        ghost var before := written;
        var out := ApplyRecord(records[k].0, records[k].1, records[k].2);
        if out.Wrote? {
          forall u: nat ensures HistoryOf(before, u) <= HistoryOf(written, u) {
            HistoryGrows(before, out.user, out.status, u);
          }
        }
      }
    }
  }
}
