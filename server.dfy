/**
 * The real-time session manager (`server/index.js`): the set of connected
 * socket ids, the click handler that scores a submission against the target
 * and drives the store, the periodic auto-increment and the health count.
 *
 * Socket emissions are returned as a sequence of events, in emission order:
 * `ToSender` is `socket.emit`, `ToAll` is `io.emit`. The daily target comes
 * from a function `server/database.js` does not define, so it is an input
 * to `Connect`; whether `forceNewDailyTarget` succeeds after a win is an
 * input to `HandleClick`.
 */
module Server {
  import opened Wrappers
  import opened Geometry
  import opened Database

  /** The largest valid coordinate on either axis. */
  const MaxCoordinate: int := 999
  /** The jackpot increase on a miss, $0.001, in thousandths. */
  const MissIncrement: int := 1
  /** The jackpot increase of the five-minute tick, $0.01, in thousandths. */
  const AutoIncrementAmount: int := 10
  /** The actor id of automated mutations. */
  const SystemActor: string := "system"

  const InvalidCoordinates: string := "Invalid coordinates"
  const FailedToProcess: string := "Failed to process click"

  /** A field of the click payload: a JavaScript number (integral here) or any other type. */
  datatype JsValue = Number(n: int) | NotNumber

  /**
   * The click payload: an object whose `x` and `y` are read, or `null` /
   * `undefined`, on which the destructuring `const { x, y } = data` throws.
   */
  datatype Payload = Coordinates(x: JsValue, y: JsValue) | Nullish

  datatype Message =
    | ClickResult(distance: nat, success: bool)
    | Error(message: string)
    | JackpotUpdate(amount: int)
    | JackpotWon(amount: int)

  datatype Event = ToSender(message: Message) | ToAll(message: Message)

  /** One socket: its id and the target fetched when it connected, which its click handler closes over. */
  datatype Connection = Connection(id: string, target: Pixel)

  predicate ValidCoordinate(v: JsValue) {
    v.Number? && 0 <= v.n <= MaxCoordinate
  }

  /** A payload that passes validation and is scored. */
  predicate Scored(data: Payload) {
    data.Coordinates? && ValidCoordinate(data.x) && ValidCoordinate(data.y)
  }

  /**
   * `roundedDistance`: the Euclidean distance rounded to three decimals, in
   * thousandths. It is zero exactly on a direct hit.
   */
  function ClickDistance(target: Pixel, x: int, y: int): (d: nat)
    ensures d == 0 <==> x == target.x && y == target.y
  {
    RoundSqrt(1_000_000 * SquaredDistance(target, x, y))
  }

  /** A click a whole number `k` of pixels away is reported as `k.000`. */
  lemma ClickDistanceWhole(target: Pixel, x: int, y: int, k: nat)
    requires SquaredDistance(target, x, y) == k * k
    ensures ClickDistance(target, x, y) == 1000 * k
  {
    assert 1_000_000 * (k * k) == (1000 * k) * (1000 * k);
    RoundSqrtOfSquare(1000 * k);
  }

  /** Logging into an empty, unlocked history leaves exactly that entry. */
  lemma FirstEntry(e: HistoryEntry)
    ensures Store.AfterLog(false, Some([]), e) == Some([e])
  {
    AppendKeepNewest([], e);
  }

  /** The pixel next to the target is reported as 1.000 away. */
  lemma NeighbourDistance(target: Pixel)
    ensures ClickDistance(target, target.x + 1, target.y) == 1000
  {
    ClickDistanceWhole(target, target.x + 1, target.y, 1);
  }

  class Session {
    const db: Store
    var clients: set<string>

    constructor (db: Store)
      ensures this.db == db && clients == {}
    {
      this.db := db;
      clients := {};
    }

    /**
     * A connection: the id joins the connected set, the socket keeps the
     * target it was given, and the current jackpot is sent to it when the
     * state record can be read.
     */
    method Connect(id: string, target: Pixel) returns (conn: Connection, events: seq<Event>)
      modifies this
      ensures clients == old(clients) + {id}
      ensures conn == Connection(id, target)
      ensures db.jackpotRecord.Some? ==> events == [ToSender(JackpotUpdate(db.jackpotRecord.value.currentAmount))]
      ensures db.jackpotRecord.None? ==> events == []
    {
      clients := clients + {id};
      conn := Connection(id, target);
      var jackpot := db.GetJackpot();
      if jackpot.Some? {
        events := [ToSender(JackpotUpdate(jackpot.value.currentAmount))];
      } else {
        events := [];
      }
    }

    /** A disconnection removes the socket's id from the connected set. */
    method Disconnect(conn: Connection)
      modifies this
      ensures clients == old(clients) - {conn.id}
    {
      clients := clients - {conn.id};
    }

    /** `/api/health`: the number of connected clients. */
    method Health() returns (count: nat)
      ensures count == |clients|
    {
      count := |clients|;
    }

    /**
     * The `click` handler. A payload that cannot be destructured, or whose
     * coordinates are not numbers in [0, 999], or a state record that cannot
     * be read, yields one `error` to the sender and no change. Otherwise a
     * direct hit resets the jackpot to the base amount and a miss adds
     * `MissIncrement`; only if that update succeeds is the change logged
     * (best effort: the log's outcome is ignored) and announced. After a
     * win, a failing `forceNewDailyTarget` turns the announcement into an
     * error to the sender.
     */
    method HandleClick(conn: Connection, data: Payload, newTargetOk: bool) returns (events: seq<Event>)
      modifies db
      ensures !Scored(data) || old(db.jackpotRecord).None? ==> unchanged(db)
      ensures data.Nullish? ==> events == [ToSender(Error(FailedToProcess))]
      ensures data.Coordinates? && !Scored(data) ==> events == [ToSender(Error(InvalidCoordinates))]
      ensures Scored(data) && old(db.jackpotRecord).None? ==> events == [ToSender(Error(FailedToProcess))]
      ensures Scored(data) && old(db.jackpotRecord).Some? ==>
        var before := old(db.jackpotRecord).value;
        var distance := ClickDistance(conn.target, data.x.n, data.y.n);
        var hit := distance == 0;
        var newAmount := if hit then BaseAmount else before.currentAmount + MissIncrement;
        var entry := HistoryEntry(before.currentAmount, newAmount, if hit then "JACKPOT_WIN" else "INCREMENT", conn.id);
        var ok := Store.UpdateSucceeds(old(db.stateLocked), old(db.jackpotRecord), newAmount);
        && !db.stateLocked
        && db.jackpotRecord == (if ok then Some(Updated(before, newAmount, conn.id)) else Some(before))
        && db.historyRecord == (if ok then Store.AfterLog(old(db.historyLocked), old(db.historyRecord), entry)
                                else old(db.historyRecord))
        && db.historyLocked == (old(db.historyLocked) && !ok)
        && events ==
             if !ok then []
             else if !hit then [ToSender(ClickResult(distance, false)), ToAll(JackpotUpdate(newAmount))]
             else if newTargetOk then
               [ToSender(ClickResult(0, true)), ToAll(JackpotUpdate(BaseAmount)), ToAll(JackpotWon(before.currentAmount))]
             else [ToSender(Error(FailedToProcess))]
      ensures old(db.Healthy()) ==> db.Healthy()
    {
      if data.Nullish? {
        return [ToSender(Error(FailedToProcess))];
      }
      var x, y := data.x, data.y;
      if !ValidCoordinate(x) || !ValidCoordinate(y) {
        return [ToSender(Error(InvalidCoordinates))];
      }
      var distance := ClickDistance(conn.target, x.n, y.n);
      var current := db.GetJackpot();
      if current.None? {
        return [ToSender(Error(FailedToProcess))];
      }
      var amount := current.value.currentAmount;
      if distance == 0 {
        var updated := db.ResetJackpot(BaseAmount, conn.id);
        if updated {
          var logged := db.LogJackpotHistory(amount, BaseAmount, "JACKPOT_WIN", conn.id);
          if !newTargetOk {
            return [ToSender(Error(FailedToProcess))];
          }
          events := [ToSender(ClickResult(distance, true)), ToAll(JackpotUpdate(BaseAmount)), ToAll(JackpotWon(amount))];
        } else {
          events := [];
        }
      } else {
        var newAmount := amount + MissIncrement;
        var updated := db.UpdateJackpot(newAmount, conn.id);
        if updated {
          var logged := db.LogJackpotHistory(amount, newAmount, "INCREMENT", conn.id);
          events := [ToSender(ClickResult(distance, false)), ToAll(JackpotUpdate(newAmount))];
        } else {
          events := [];
        }
      }
    }

    /**
     * The five-minute tick: adds `AutoIncrementAmount` as the system actor,
     * logs it, and broadcasts the new amount only when the update succeeded.
     * A state record that cannot be read ends the tick with no change.
     */
    method AutoIncrement() returns (events: seq<Event>)
      modifies db
      ensures old(db.jackpotRecord).None? ==> unchanged(db) && events == []
      ensures old(db.jackpotRecord).Some? ==>
        var before := old(db.jackpotRecord).value;
        var newAmount := before.currentAmount + AutoIncrementAmount;
        var entry := HistoryEntry(before.currentAmount, newAmount, "AUTO_INCREMENT", SystemActor);
        var ok := Store.UpdateSucceeds(old(db.stateLocked), old(db.jackpotRecord), newAmount);
        && !db.stateLocked
        && db.jackpotRecord == (if ok then Some(Updated(before, newAmount, SystemActor)) else Some(before))
        && db.historyRecord == (if ok then Store.AfterLog(old(db.historyLocked), old(db.historyRecord), entry)
                                else old(db.historyRecord))
        && db.historyLocked == (old(db.historyLocked) && !ok)
        && events == if ok then [ToAll(JackpotUpdate(newAmount))] else []
      ensures old(db.Healthy()) ==> db.Healthy()
    {
      var current := db.GetJackpot();
      if current.None? {
        return [];
      }
      var amount := current.value.currentAmount;
      var newAmount := amount + AutoIncrementAmount;
      var updated := db.UpdateJackpot(newAmount, SystemActor);
      if updated {
        var logged := db.LogJackpotHistory(amount, newAmount, "AUTO_INCREMENT", SystemActor);
        events := [ToAll(JackpotUpdate(newAmount))];
      } else {
        events := [];
      }
    }
  }

  /** A miss on a $100.000 jackpot: $100.001, one INCREMENT entry, the distance to the sender and the new amount to all. */
  method MissScenario(session: Session, conn: Connection, x: int, y: int) returns (events: seq<Event>)
    requires session.db.jackpotRecord == Some(JackpotState(100_000, "system", 1))
    requires session.db.historyRecord == Some([])
    requires !session.db.stateLocked && !session.db.historyLocked
    requires 0 <= x <= MaxCoordinate && 0 <= y <= MaxCoordinate && Pixel(x, y) != conn.target
    modifies session.db
    ensures events == [ToSender(ClickResult(ClickDistance(conn.target, x, y), false)), ToAll(JackpotUpdate(100_001))]
    ensures session.db.jackpotRecord == Some(JackpotState(100_001, conn.id, 2))
    ensures session.db.historyRecord == Some([HistoryEntry(100_000, 100_001, "INCREMENT", conn.id)])
  {
    var distance := ClickDistance(conn.target, x, y);
    assert distance != 0;
    var entry := HistoryEntry(100_000, 100_001, "INCREMENT", conn.id);
    FirstEntry(entry);
    events := session.HandleClick(conn, Coordinates(Number(x), Number(y)), true);
    assert session.db.historyRecord == Store.AfterLog(false, Some([]), entry);
  }

  /** A direct hit on a $250.500 jackpot: reset to $100.000, one JACKPOT_WIN entry, both announcements. */
  method WinScenario(session: Session, conn: Connection) returns (events: seq<Event>)
    requires session.db.jackpotRecord == Some(JackpotState(250_500, "system", 7))
    requires session.db.historyRecord == Some([])
    requires !session.db.stateLocked && !session.db.historyLocked
    requires 0 <= conn.target.x <= MaxCoordinate && 0 <= conn.target.y <= MaxCoordinate
    modifies session.db
    ensures events == [ToSender(ClickResult(0, true)), ToAll(JackpotUpdate(100_000)), ToAll(JackpotWon(250_500))]
    ensures session.db.jackpotRecord == Some(JackpotState(100_000, conn.id, 8))
    ensures session.db.historyRecord == Some([HistoryEntry(250_500, 100_000, "JACKPOT_WIN", conn.id)])
  {
    events := session.HandleClick(conn, Coordinates(Number(conn.target.x), Number(conn.target.y)), true);
    FirstEntry(HistoryEntry(250_500, 100_000, "JACKPOT_WIN", conn.id));
  }

  /** A click at x = 1000: one error to the sender and nothing else. */
  method OutOfRangeScenario(session: Session, conn: Connection) returns (events: seq<Event>)
    modifies session.db
    ensures events == [ToSender(Error(InvalidCoordinates))]
    ensures unchanged(session.db)
  {
    events := session.HandleClick(conn, Coordinates(Number(1000), Number(5)), true);
  }
}
