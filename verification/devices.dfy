/**
 The device list and the session lifecycle on it: starting a session on a
 device, closing it into the history of archived sessions, the
 available/busy tally, and one tick of the dashboard heartbeat.

 Every operation takes the device list (and history) as values and returns the
 list to be saved; nothing is saved when an operation aborts.
 */
module Devices {
  import opened Options
  import opened Arith
  import opened Sessions
  import opened Cost
  import Clock

  datatype Status = Available | Busy

  /** A rentable console; `currentSession` is `null` while it is free. */
  datatype Device = Device(
    id: int,
    name: string,
    kind: string,
    status: Status,
    currentSession: Option<Session>)

  /** A device is available exactly when no session is attached to it. */
  predicate Consistent(d: Device)
  {
    d.status == Available <==> d.currentSession.None?
  }

  predicate AllConsistent(devices: seq<Device>)
  {
    forall i :: 0 <= i < |devices| ==> Consistent(devices[i])
  }

  /** `devices.findIndex(d => d.id === id)`, with `None` for -1: the first device with that id. */
  function FindIndex(devices: seq<Device>, id: int): (r: Option<nat>)
    ensures r.Some? ==> r.value < |devices| && devices[r.value].id == id
    ensures r.Some? ==> forall j :: 0 <= j < r.value ==> devices[j].id != id
    ensures r.None? <==> forall j :: 0 <= j < |devices| ==> devices[j].id != id
    decreases |devices|
  {
    if |devices| == 0 then None
    else if devices[0].id == id then Some(0)
    else
      match FindIndex(devices[1..], id)
      case None => None
      case Some(k) => Some(k + 1)
  }

  // ---------------------------------------------------------------------------
  // Starting a session
  // ---------------------------------------------------------------------------

  datatype StartOutcome =
    | Started(index: nat)
    | NoTimeLimit      // a timed session was asked for with no positive time
    | DeviceNotFound   // no device carries the selected id; nothing happens

  datatype StartResult = StartResult(devices: seq<Device>, outcome: StartOutcome)

  /**
   `confirmStartSession`: the selected game, mode and the parsed hour and minute
   inputs start a session on the first device with the selected id. `now` is the
   start time and `sessionId` the fresh session id. The device's current status
   is not consulted: a session already on it is replaced.
   */
  function ConfirmStartSession(
    devices: seq<Device>, selected: int, game: Game,
    isTimed: bool, hours: int, minutes: int,
    now: int, sessionId: int): (r: StartResult)
    ensures |r.devices| == |devices|
    ensures r.outcome == NoTimeLimit <==> isTimed && hours * 60 + minutes <= 0
    ensures r.outcome == DeviceNotFound <==>
              && !(isTimed && hours * 60 + minutes <= 0)
              && forall j :: 0 <= j < |devices| ==> devices[j].id != selected
    ensures !r.outcome.Started? ==> r.devices == devices
    ensures r.outcome.Started? ==>
              var i := r.outcome.index;
              && i < |devices|
              && devices[i].id == selected
              && (forall j :: 0 <= j < i ==> devices[j].id != selected)
              && r.devices[i].id == devices[i].id
              && r.devices[i].name == devices[i].name
              && r.devices[i].kind == devices[i].kind
              && r.devices[i].status == Busy
              && r.devices[i].currentSession.Some?
              && (forall j :: 0 <= j < |devices| && j != i ==> r.devices[j] == devices[j])
    ensures r.outcome.Started? ==>
              var s := r.devices[r.outcome.index].currentSession.value;
              && s.id == sessionId
              && s.startTime == now
              && s.gameId == game.id && s.gameName == game.name
              && s.hourlyRate == game.price
              && s.isTimed == isTimed
              && s.timeLimitMinutes == (if isTimed then hours * 60 + minutes else 0)
              && s.timeLimitMinutes >= 0
              && s.orders == []
  {
    var limitMinutes := if isTimed then hours * 60 + minutes else 0;
    if isTimed && limitMinutes <= 0 then StartResult(devices, NoTimeLimit)
    else
      match FindIndex(devices, selected)
      case None => StartResult(devices, DeviceNotFound)
      case Some(i) =>
        var session := Session(sessionId, now, game.id, game.name, game.price,
                               isTimed, limitMinutes, []);
        var device := devices[i].(status := Busy, currentSession := Some(session));
        StartResult(devices[i := device], Started(i))
  }

  /** Starting a session keeps every device's status in step with its session. */
  lemma StartKeepsConsistency(
    devices: seq<Device>, selected: int, game: Game,
    isTimed: bool, hours: int, minutes: int, now: int, sessionId: int)
    requires AllConsistent(devices)
    ensures AllConsistent(ConfirmStartSession(devices, selected, game, isTimed, hours, minutes, now, sessionId).devices)
  {
    var r := ConfirmStartSession(devices, selected, game, isTimed, hours, minutes, now, sessionId);
    if r.outcome.Started? {
      forall j | 0 <= j < |r.devices|
        ensures Consistent(r.devices[j])
      {
        if j != r.outcome.index {
          assert r.devices[j] == devices[j];
        }
      }
    }
  }

  // ---------------------------------------------------------------------------
  // Closing a session
  // ---------------------------------------------------------------------------

  /** A closed session as appended to the history: the session plus its final bill. */
  datatype ArchiveRecord = ArchiveRecord(
    session: Session,
    endTime: int,
    finalDurationMinutes: int,
    gameCost: int,
    ordersCost: real,
    grandTotal: real,
    deviceId: int,
    deviceName: string,
    cashier: string)

  datatype CloseError =
    | NoSuchDevice      // no device carries the selected id
    | NoActiveSession   // the selected device has no session to close

  datatype Closed = Closed(devices: seq<Device>, history: seq<ArchiveRecord>)

  /**
   `applyAndClose`: bills the session on the first device with the selected id
   at time `now`, appends the archive record to the history, and frees the
   device. When there is no such device or no session on it the original
   program fails before saving anything; here that is an error.
   */
  function ApplyAndClose(
    devices: seq<Device>, selected: int, history: seq<ArchiveRecord>,
    now: int, cashier: string): (r: Result<Closed, CloseError>)
    ensures r == Err(NoSuchDevice) <==> FindIndex(devices, selected).None?
    ensures r == Err(NoActiveSession) <==>
              && FindIndex(devices, selected).Some?
              && devices[FindIndex(devices, selected).value].currentSession.None?
    ensures r.Ok? ==>
              var i := FindIndex(devices, selected).value;
              var closed := r.value;
              && |closed.devices| == |devices|
              && closed.devices[i].id == devices[i].id
              && closed.devices[i].name == devices[i].name
              && closed.devices[i].kind == devices[i].kind
              && closed.devices[i].status == Available
              && closed.devices[i].currentSession.None?
              && (forall j :: 0 <= j < |devices| && j != i ==> closed.devices[j] == devices[j])
    ensures r.Ok? ==>
              var i := FindIndex(devices, selected).value;
              var s := devices[i].currentSession.value;
              var h := r.value.history;
              && |h| == |history| + 1
              && h[..|history|] == history
              && h[|history|].session == s
              && h[|history|].endTime == now
              && h[|history|].finalDurationMinutes == CalculateCost(s, now).durationMinutes
              && h[|history|].gameCost == CalculateCost(s, now).totalCost
              && h[|history|].ordersCost == SumTotals(s.orders)
              && h[|history|].grandTotal == h[|history|].gameCost as real + h[|history|].ordersCost
              && h[|history|].deviceId == devices[i].id
              && h[|history|].deviceName == devices[i].name
              && h[|history|].cashier == cashier
  {
    match FindIndex(devices, selected)
    case None => Err(NoSuchDevice)
    case Some(i) =>
      match devices[i].currentSession
      case None => Err(NoActiveSession)
      case Some(s) =>
        var bill := CalculateCost(s, now);
        var ordersTotal := OrdersTotal(s.orders);
        OrdersTotalIsSum(s.orders);
        var record := ArchiveRecord(
          s, now, bill.durationMinutes, bill.totalCost, ordersTotal,
          bill.totalCost as real + ordersTotal, devices[i].id, devices[i].name, cashier);
        var device := devices[i].(status := Available, currentSession := None);
        Ok(Closed(devices[i := device], history + [record]))
  }

  /** Closing a session keeps every device's status in step with its session. */
  lemma CloseKeepsConsistency(
    devices: seq<Device>, selected: int, history: seq<ArchiveRecord>, now: int, cashier: string)
    requires AllConsistent(devices)
    ensures var r := ApplyAndClose(devices, selected, history, now, cashier);
            r.Ok? ==> AllConsistent(r.value.devices)
  {
    var r := ApplyAndClose(devices, selected, history, now, cashier);
    if r.Ok? {
      var i := FindIndex(devices, selected).value;
      forall j | 0 <= j < |r.value.devices|
        ensures Consistent(r.value.devices[j])
      {
        if j != i {
          assert r.value.devices[j] == devices[j];
        }
      }
    }
  }

  /**
   The total the details panel shows while a session runs: the rounded game
   cost plus the sum of the order amounts, and never less than the game cost
   when no order is negative.
   */
  function DetailsTotal(s: Session, now: int): (total: real)
    ensures total == CalculateCost(s, now).totalCost as real + SumTotals(s.orders)
    ensures (forall k :: 0 <= k < |s.orders| ==> s.orders[k].total >= 0.0) ==>
              total >= CalculateCost(s, now).totalCost as real
  {
    OrdersTotalIsSum(s.orders);
    CalculateCost(s, now).totalCost as real + OrdersTotal(s.orders)
  }

  /** The archived grand total is what the details panel shows at the moment of closing. */
  lemma ArchivedTotalMatchesDetails(
    devices: seq<Device>, selected: int, history: seq<ArchiveRecord>, now: int, cashier: string)
    requires FindIndex(devices, selected).Some?
    requires devices[FindIndex(devices, selected).value].currentSession.Some?
    ensures ApplyAndClose(devices, selected, history, now, cashier).Ok?
    ensures var r := ApplyAndClose(devices, selected, history, now, cashier).value;
            var i := FindIndex(devices, selected).value;
            r.history[|history|].grandTotal == DetailsTotal(devices[i].currentSession.value, now)
  {
    var i := FindIndex(devices, selected).value;
    OrdersTotalIsSum(devices[i].currentSession.value.orders);
  }

  /**
   Starting a session on a free device and closing it again gives back the
   original device list, and archives one record whose bill has no orders.
   */
  lemma StartThenCloseRestoresDevices(
    devices: seq<Device>, selected: int, game: Game,
    isTimed: bool, hours: int, minutes: int, start: int, sessionId: int,
    history: seq<ArchiveRecord>, now: int, cashier: string)
    requires FindIndex(devices, selected).Some?
    requires devices[FindIndex(devices, selected).value] ==
             devices[FindIndex(devices, selected).value].(status := Available, currentSession := None)
    requires !(isTimed && hours * 60 + minutes <= 0)
    ensures var started := ConfirmStartSession(devices, selected, game, isTimed, hours, minutes, start, sessionId);
            var r := ApplyAndClose(started.devices, selected, history, now, cashier);
            && r.Ok?
            && r.value.devices == devices
            && r.value.history[|history|].ordersCost == 0.0
            && r.value.history[|history|].grandTotal == r.value.history[|history|].gameCost as real
  {
    var started := ConfirmStartSession(devices, selected, game, isTimed, hours, minutes, start, sessionId);
    var i := FindIndex(devices, selected).value;
    assert started.outcome == Started(i);
    FindIndexUnchangedIds(devices, started.devices, selected);
    var r := ApplyAndClose(started.devices, selected, history, now, cashier);
    assert r.Ok?;
    assert r.value.devices == devices by {
      forall j | 0 <= j < |devices|
        ensures r.value.devices[j] == devices[j]
      {
        if j != i {
          assert r.value.devices[j] == started.devices[j];
        }
      }
    }
  }

  /**
   Closing an open session after 45 minutes at 20 an hour with one order of 10
   archives a game cost of 15 and a grand total of 25.
   */
  lemma CloseOpenSessionExample()
    ensures var s := Session(7, 0, 1, "g", 20.0, false, 0, [Order("tea", 1, 10.0, 10.0)]);
            var r := ApplyAndClose([Device(1, "d1", "ps5", Busy, Some(s))], 1, [], 45 * 60000, "user");
            && r.Ok?
            && r.value.history[0].gameCost == 15
            && r.value.history[0].ordersCost == 10.0
            && r.value.history[0].grandTotal == 25.0
            && r.value.devices == [Device(1, "d1", "ps5", Available, None)]
  {
    var s := Session(7, 0, 1, "g", 20.0, false, 0, [Order("tea", 1, 10.0, 10.0)]);
    CeilUnique(15.0, 15);
    assert CalculateCost(s, 45 * 60000).totalCost == 15;
  }

  /** Looking a device up depends only on the ids in the list. */
  lemma FindIndexUnchangedIds(a: seq<Device>, b: seq<Device>, id: int)
    requires |a| == |b|
    requires forall j :: 0 <= j < |a| ==> a[j].id == b[j].id
    ensures FindIndex(a, id) == FindIndex(b, id)
  {
  }

  // ---------------------------------------------------------------------------
  // Available/busy tally
  // ---------------------------------------------------------------------------

  /**
   `devices.filter(d => d.status === st).length`: zero exactly when no device
   has the status, the whole list exactly when every device has it.
   */
  function CountStatus(devices: seq<Device>, st: Status): (n: nat)
    ensures n <= |devices|
    ensures n == 0 <==> forall k :: 0 <= k < |devices| ==> devices[k].status != st
    ensures n == |devices| <==> forall k :: 0 <= k < |devices| ==> devices[k].status == st
    decreases |devices|
  {
    if |devices| == 0 then 0
    else CountStatus(devices[..|devices| - 1], st)
         + (if devices[|devices| - 1].status == st then 1 else 0)
  }

  datatype Summary = Summary(available: nat, busy: nat)

  /** `updateSummaryCounts`: how many devices are available and how many are busy. */
  function SummaryCounts(devices: seq<Device>): (sum: Summary)
    ensures sum.available + sum.busy == |devices|
  {
    CountsPartition(devices);
    Summary(CountStatus(devices, Available), CountStatus(devices, Busy))
  }

  /** Every device is counted exactly once: as available or as busy. */
  lemma {:induction false} CountsPartition(devices: seq<Device>)
    ensures CountStatus(devices, Available) + CountStatus(devices, Busy) == |devices|
    decreases |devices|
  {
    if |devices| > 0 {
      CountsPartition(devices[..|devices| - 1]);
    }
  }

  /** Replacing one device changes a tally by what the old and the new device contribute. */
  lemma {:induction false} CountAfterUpdate(devices: seq<Device>, i: nat, d: Device, st: Status)
    requires i < |devices|
    ensures CountStatus(devices[i := d], st)
              == CountStatus(devices, st)
                 - (if devices[i].status == st then 1 else 0)
                 + (if d.status == st then 1 else 0)
    decreases |devices|
  {
    var n := |devices|;
    var u := devices[i := d];
    if i == n - 1 {
      assert u[..n - 1] == devices[..n - 1];
    } else {
      assert u[..n - 1] == devices[..n - 1][i := d];
      CountAfterUpdate(devices[..n - 1], i, d, st);
    }
  }

  /** Starting a session on a free device moves one device from the available to the busy tally. */
  lemma StartMovesOneToBusy(
    devices: seq<Device>, selected: int, game: Game,
    isTimed: bool, hours: int, minutes: int, now: int, sessionId: int)
    requires FindIndex(devices, selected).Some?
    requires devices[FindIndex(devices, selected).value].status == Available
    requires !(isTimed && hours * 60 + minutes <= 0)
    ensures var r := ConfirmStartSession(devices, selected, game, isTimed, hours, minutes, now, sessionId);
            && SummaryCounts(r.devices).available + 1 == SummaryCounts(devices).available
            && SummaryCounts(r.devices).busy == SummaryCounts(devices).busy + 1
  {
    var r := ConfirmStartSession(devices, selected, game, isTimed, hours, minutes, now, sessionId);
    var i := FindIndex(devices, selected).value;
    assert r.devices == devices[i := r.devices[i]];
    CountAfterUpdate(devices, i, r.devices[i], Available);
    CountAfterUpdate(devices, i, r.devices[i], Busy);
  }

  /** Closing the session of a busy device moves one device from the busy to the available tally. */
  lemma CloseMovesOneToAvailable(
    devices: seq<Device>, selected: int, history: seq<ArchiveRecord>, now: int, cashier: string)
    requires FindIndex(devices, selected).Some?
    requires devices[FindIndex(devices, selected).value].status == Busy
    requires devices[FindIndex(devices, selected).value].currentSession.Some?
    ensures var r := ApplyAndClose(devices, selected, history, now, cashier).value;
            && SummaryCounts(r.devices).available == SummaryCounts(devices).available + 1
            && SummaryCounts(r.devices).busy + 1 == SummaryCounts(devices).busy
  {
    var r := ApplyAndClose(devices, selected, history, now, cashier).value;
    var i := FindIndex(devices, selected).value;
    assert r.devices == devices[i := r.devices[i]];
    CountAfterUpdate(devices, i, r.devices[i], Available);
    CountAfterUpdate(devices, i, r.devices[i], Busy);
  }

  // ---------------------------------------------------------------------------
  // Dashboard heartbeat
  // ---------------------------------------------------------------------------

  /**
   What one tick shows on a busy device's card: the elapsed time (rendered as
   `Timer()`), the rounded cost and whether the overtime alert is raised.
   */
  datatype TimerView = TimerView(elapsedMs: int, cost: int, overtimeAlert: bool) {
    /** The timer text of the card, `formatTime(durationMs)`. */
    function Timer(): string
    {
      Clock.FormatTime(elapsedMs)
    }
  }

  /**
   One run of `updateDashboardTimers` at time `now`: for every busy device with a
   session, its elapsed-time text, its rounded cost and whether it raises the
   overtime alert; nothing for the others. The device list itself is not changed.
   */
  function DashboardTick(devices: seq<Device>, now: int): (views: seq<Option<TimerView>>)
    ensures |views| == |devices|
    ensures forall i :: 0 <= i < |devices| ==>
              (views[i].Some? <==> devices[i].status == Busy && devices[i].currentSession.Some?)
    ensures forall i :: 0 <= i < |devices| && views[i].Some? ==>
              views[i].value.elapsedMs == now - devices[i].currentSession.value.startTime
    ensures forall i :: 0 <= i < |devices| && views[i].Some? ==>
              var s := devices[i].currentSession.value;
              && views[i].value.cost == CalculateCost(s, now).totalCost
              && (views[i].value.overtimeAlert <==>
                    s.isTimed && now - s.startTime > s.timeLimitMinutes * 60000)
  {
    seq(|devices|, i requires 0 <= i < |devices| => CardView(devices[i], now))
  }

  /** The card of one device at time `now`: updated by the tick only for a busy device with a session. */
  function CardView(d: Device, now: int): (view: Option<TimerView>)
    ensures view.Some? <==> d.status == Busy && d.currentSession.Some?
    ensures view.Some? ==>
              view.value.elapsedMs == now - d.currentSession.value.startTime
    ensures view.Some? ==>
              view.value.cost == CalculateCost(d.currentSession.value, now).totalCost
    ensures view.Some? ==>
              var s := d.currentSession.value;
              view.value.overtimeAlert <==> s.isTimed && now - s.startTime > s.timeLimitMinutes * 60000
  {
    if d.status == Busy && d.currentSession.Some? then
      OvertimeIffPastBooking(d.currentSession.value, now);
      Some(TimerView(
        CalculateCost(d.currentSession.value, now).durationMs,
        CalculateCost(d.currentSession.value, now).totalCost,
        CalculateCost(d.currentSession.value, now).isOvertime))
    else None
  }

  /** On every running device a tick's timer text reads back as the whole seconds elapsed. */
  lemma TickTimerShowsElapsedSeconds(devices: seq<Device>, now: int, i: nat)
    requires i < |devices|
    requires devices[i].status == Busy && devices[i].currentSession.Some?
    requires now >= devices[i].currentSession.value.startTime
    ensures DashboardTick(devices, now)[i].Some?
    ensures var f := Clock.ParseClock(DashboardTick(devices, now)[i].value.Timer());
            && f.Some?
            && f.value.hours * 3600 + f.value.minutes * 60 + f.value.seconds
                 == (now - devices[i].currentSession.value.startTime) / 1000
  {
    var view := DashboardTick(devices, now)[i].value;
    Clock.FormatTimeRoundTrip(view.elapsedMs);
  }
}
