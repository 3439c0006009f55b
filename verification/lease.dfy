// Leadership: a lease row with a fencing token, contended for by any number of controllers.

module Lease {
  import opened Types

  type ControllerId = Text

  datatype ControllerLease = ControllerLease(controllerId: ControllerId, token: nat, expiresAt: Time)

  /** The singleton row is the lease last granted or renewed. */
  type LeaseRow = Option<ControllerLease>

  /** `acquire_leadership`: refused while somebody else's lease is unexpired. */
  function Acquire(row: LeaseRow, c: ControllerId, length: Time, now: Time): (LeaseRow, Option<ControllerLease>) {
    if row.Some? && row.value.expiresAt > now && row.value.controllerId != c then (row, None)
    else
      var lease := ControllerLease(c, if row.None? then 1 else row.value.token + 1, now + length);
      (Some(lease), Some(lease))
  }

  /** `renew_leadership`: only the row's own holder and token, and not after it expired. */
  function Renew(row: LeaseRow, lease: ControllerLease, length: Time, now: Time): Result<(LeaseRow, ControllerLease)> {
    if row.Some? && row.value.controllerId == lease.controllerId && row.value.token == lease.token && row.value.expiresAt >= now then
      var renewed := ControllerLease(lease.controllerId, lease.token, now + length);
      Ok((Some(renewed), renewed))
    else Err(LeadershipLost)
  }

  /** The beginning of a pass: a controller without a lease asks for one, and one with a lease renews it. */
  function Led(row: LeaseRow, lease: Option<ControllerLease>, c: ControllerId, length: Time, now: Time): (LeaseRow, Option<ControllerLease>) {
    var (row1, lease1) := if lease.None? then Acquire(row, c, length, now) else (row, lease);
    if lease1.None? then (row1, None)
    else
      match Renew(row1, lease1.value, length, now)
      case Ok((row2, renewed)) => (row2, Some(renewed))
      case Err(_) => (row1, None)
  }

  /** The row, the latest lease each live controller holds, the clock, and every token granted, in order. */
  datatype World = World(row: LeaseRow, leases: map<ControllerId, ControllerLease>, now: Time, granted: seq<nat>)

  datatype LeaseStep =
    | Ticks(to: Time)
    | Acquires(c: ControllerId, length: Time)
    | Renews(c: ControllerId, length: Time)
    | Dies(c: ControllerId)

  predicate Possible(w: World, step: LeaseStep) {
    match step
    case Ticks(to) => to >= w.now
    case Acquires(_, _) => true
    case Renews(c, _) => c in w.leases
    case Dies(_) => true
  }

  function LeaseNext(w: World, step: LeaseStep): World {
    match step
    case Ticks(to) => w.(now := to)
    case Acquires(c, length) =>
      var (row, lease) := Acquire(w.row, c, length, w.now);
      if lease.Some? then World(row, w.leases[c := lease.value], w.now, w.granted + [lease.value.token])
      else w.(leases := w.leases - {c})
    case Renews(c, length) =>
      if c !in w.leases then w
      else
        (match Renew(w.row, w.leases[c], length, w.now)
         case Ok((row, lease)) => w.(row := row, leases := w.leases[c := lease])
         case Err(_) => w.(leases := w.leases - {c}))
    case Dies(c) => w.(leases := w.leases - {c})
  }

  ghost predicate Rising(s: seq<nat>) {
    forall i, j | 0 <= i < j < |s| :: s[i] < s[j]
  }

  /**
   * The row carries the newest token; a lease with that token is its holder's and not
   * longer than the row; everybody else's lease has expired.
   */
  ghost predicate WorldOk(w: World) {
    && Rising(w.granted)
    && (w.row.None? ==> w.leases == map[] && w.granted == [])
    && (w.row.Some? ==>
          && w.granted != [] && w.granted[|w.granted| - 1] == w.row.value.token
          && forall c | c in w.leases ::
               && w.leases[c].controllerId == c && w.leases[c].token <= w.row.value.token
               && (c == w.row.value.controllerId ==> w.leases[c].expiresAt <= w.row.value.expiresAt)
               && (c != w.row.value.controllerId ==> w.leases[c].expiresAt <= w.now && w.leases[c].token < w.row.value.token))
  }

  lemma LeaseStepOk(w: World, step: LeaseStep)
    requires WorldOk(w) && Possible(w, step)
    ensures WorldOk(LeaseNext(w, step)) && w.granted <= LeaseNext(w, step).granted
  {
  }

  ghost predicate LeaseStepped(ws: seq<World>, steps: seq<LeaseStep>, i: nat) {
    i < |steps| && i + 1 < |ws| && Possible(ws[i], steps[i]) && ws[i + 1] == LeaseNext(ws[i], steps[i])
  }

  /**
   * Any interleaving of contenders, each with lease lengths of its own, from no lease at
   * all, under a clock that never goes back.
   */
  ghost predicate IsContention(ws: seq<World>, steps: seq<LeaseStep>) {
    && |ws| == |steps| + 1 && ws[0].row.None? && ws[0].leases == map[] && ws[0].granted == []
    && forall i {:trigger LeaseStepped(ws, steps, i)} | 0 <= i < |steps| :: LeaseStepped(ws, steps, i)
  }

  lemma {:induction false} ContentionOk(ws: seq<World>, steps: seq<LeaseStep>, i: nat)
    requires IsContention(ws, steps) && i <= |steps|
    ensures WorldOk(ws[i])
    decreases i
  {
    if i > 0 {
      ContentionOk(ws, steps, i - 1);
      assert LeaseStepped(ws, steps, i - 1);
      LeaseStepOk(ws[i - 1], steps[i - 1]);
    }
  }

  /** The latest leases of two controllers are never both strictly unexpired. */
  lemma OneLeader(ws: seq<World>, steps: seq<LeaseStep>, i: nat, c: ControllerId, d: ControllerId)
    requires IsContention(ws, steps) && i <= |steps|
    requires c in ws[i].leases && d in ws[i].leases && c != d
    ensures !(ws[i].leases[c].expiresAt > ws[i].now && ws[i].leases[d].expiresAt > ws[i].now)
  {
    ContentionOk(ws, steps, i);
  }

  /** Fencing tokens strictly increase over all acquisitions. */
  lemma TokensRise(ws: seq<World>, steps: seq<LeaseStep>, i: nat)
    requires IsContention(ws, steps) && i <= |steps|
    ensures Rising(ws[i].granted)
  {
    ContentionOk(ws, steps, i);
  }

  /** Exactly the holder of the newest token can renew, while its row has not expired. */
  lemma OnlyNewestRenews(ws: seq<World>, steps: seq<LeaseStep>, i: nat, c: ControllerId, length: Time)
    requires IsContention(ws, steps) && i <= |steps| && c in ws[i].leases
    ensures ws[i].row.Some? && ws[i].granted != []
    ensures var w := ws[i];
      Renew(w.row, w.leases[c], length, w.now).Ok? <==>
        (w.leases[c].token == w.granted[|w.granted| - 1] && w.row.value.expiresAt >= w.now)
    ensures Renew(ws[i].row, ws[i].leases[c], length, ws[i].now).Ok? ==>
      forall d | d in ws[i].leases && d != c :: ws[i].leases[d].token < ws[i].leases[c].token
  {
    ContentionOk(ws, steps, i);
  }

  /**
   * A contender is granted the lease exactly if there is no row, the row has expired or is
   * its own: for the asked length from now, under a token above all granted before. Refused,
   * it leaves the row alone, and holds nothing. It may ask, or die, at any time.
   */
  lemma AcquiresExactly(ws: seq<World>, steps: seq<LeaseStep>, i: nat, c: ControllerId, length: Time)
    requires IsContention(ws, steps) && i <= |steps|
    ensures Possible(ws[i], Acquires(c, length)) && Possible(ws[i], Dies(c)) && forall to :: to >= ws[i].now ==> Possible(ws[i], Ticks(to))
    ensures var w := ws[i]; var (row, lease) := Acquire(w.row, c, length, w.now); var w' := LeaseNext(w, Acquires(c, length));
      && (lease.Some? <==> w.row.None? || w.row.value.expiresAt <= w.now || w.row.value.controllerId == c)
      && (lease.Some? ==>
            && lease.value.controllerId == c && lease.value.expiresAt == w.now + length && row == lease
            && (forall token | token in w.granted :: token < lease.value.token)
            && w'.row == row && w'.leases == w.leases[c := lease.value] && w'.granted == w.granted + [lease.value.token])
      && (lease.None? ==> row == w.row && w'.row == w.row && c !in w'.leases && w'.granted == w.granted)
  {
    ContentionOk(ws, steps, i);
  }

  /** A renewal that is granted prolongs the lease from now, under its token; one that is not leaves the row alone. */
  lemma RenewsExactly(row: LeaseRow, lease: ControllerLease, length: Time, now: Time)
    ensures var r := Renew(row, lease, length, now);
      && (r.Ok? <==> row.Some? && row.value.controllerId == lease.controllerId && row.value.token == lease.token && now <= row.value.expiresAt)
      && (r.Ok? ==>
            && r.value.0 == Some(r.value.1) && r.value.1.controllerId == lease.controllerId && r.value.1.token == lease.token
            && r.value.1.expiresAt == now + length)
      && (r.Err? ==> r.error == LeadershipLost)
  {
  }

  /** The step is one of `c`. */
  predicate IsOf(step: LeaseStep, c: ControllerId) {
    match step
    case Ticks(_) => false
    case Acquires(d, _) => d == c
    case Renews(d, _) => d == c
    case Dies(_) => false
  }

  /** While its lease is unexpired nobody but the holder changes the row, whatever the others try. */
  lemma {:induction false} LeaseStands(ws: seq<World>, steps: seq<LeaseStep>, i: nat, j: nat)
    requires IsContention(ws, steps) && i <= j <= |steps| && ws[i].row.Some?
    requires forall k | i <= k < j :: !IsOf(steps[k], ws[i].row.value.controllerId)
    requires ws[j].now < ws[i].row.value.expiresAt
    ensures ws[j].row == ws[i].row
    decreases j
  {
    if i < j {
      assert LeaseStepped(ws, steps, j - 1);
      ContentionOk(ws, steps, j - 1);
      LeaseStands(ws, steps, i, j - 1);
    }
  }

  /** The lease that controller `c` holds, if any. */
  function Held(w: World, c: ControllerId): Option<ControllerLease> {
    if c in w.leases then Some(w.leases[c]) else None
  }

  /** The beginning of a pass is one or two steps of the contention. */
  lemma LedIsSteps(w: World, c: ControllerId, length: Time)
    ensures var w1 := if c in w.leases then w else LeaseNext(w, Acquires(c, length));
      var w2 := if c in w1.leases then LeaseNext(w1, Renews(c, length)) else w1;
      Led(w.row, Held(w, c), c, length, w.now) == (w2.row, Held(w2, c))
  {
  }
}
