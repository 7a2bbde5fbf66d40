/** The laws of a connection, for every run of a newly made one. */
module ConnectionRuns {
  import opened Connection
  import opened ConnectionProofs
  import opened ConnectDiscipline
  import opened ConnectionLaws
  import opened Messages

  /** One attempt, one owner of the shared promise, one reconnect timer, at any point of any run. */
  lemma NewConnectionIsDisciplined(o: ConnectionOptions, now: int, events: seq<Event>)
    ensures var c := Run(o, Initial(now), events);
            && OneAttempt(c.link) && OneOwner(c.link) && |c.link.attempts| <= 1
            && OneTimer(o, c.timers) && |c.timers.armed| <= 1
  {
    ConnectIsShared(o, Initial(now), events);
    ReconnectBackoff(o, Initial(now), events);
  }

  /** Every accepted send of any run is settled at most once, exactly once when it is no longer pending, and in time. */
  lemma NewConnectionSettlesOnce(o: ConnectionOptions, now: int, events: seq<Event>)
    requires FreshIds(o, Initial(now), events)
    ensures SettledOnce(Run(o, Initial(now), events).book)
    ensures DueTimersFireFirst(o, Initial(now), events) ==>
              var c := Run(o, Initial(now), events);
              && AllInTime(o, c.book, c.now)
              && forall p | 0 <= p < |c.book.sends| && c.now > c.book.sends[p].sentAt + o.timeoutMs ::
                   |c.book.sends[p].settlements| == 1
  {
    EverySendSettledOnce(o, Initial(now), events);
    if DueTimersFireFirst(o, Initial(now), events) {
      EverySendSettledInTime(o, Initial(now), events);
    }
  }

  /** `close` at any point of any run: it lasts exactly when nothing in flight can overwrite it. */
  lemma ClosingANewConnection(o: ConnectionOptions, now: int, events: seq<Event>)
    ensures var c := Run(o, Initial(now), events);
            Quiet(c.link) <==> forall later | NoConnect(later) :: Run(o, Close(c), later).link.state == Closed
  {
    NewConnectionIsDisciplined(o, now, events);
    CloseLastsExactlyWhenQuiet(o, Run(o, Initial(now), events));
  }

  /** At any point of any run: the first response to a pending id settles its send, once, with what it carries. */
  lemma ResponsesSettleSends(o: ConnectionOptions, now: int, events: seq<Event>, messages: seq<RpcMessage>)
    ensures var c := Run(o, Initial(now), events);
            Delivered(c.book, Step(o, c, DataReceived(messages)).book, messages, c.now)
  {
    EveryRunKeepsEntries(o, Initial(now), events);
    DeliverySettles(o, Run(o, Initial(now), events), messages);
  }

  /**
   * At any point of any run: a connection that is lost, or a reconnect that fails, leaves exactly one reconnect timer armed
   * when reconnecting is on, a new one with the next delay if there was none.
   */
  lemma LostConnectionsComeBack(o: ConnectionOptions, now: int, events: seq<Event>, e: Event)
    requires LosesConnection(o, Run(o, Initial(now), events), e)
    ensures var c := Run(o, Initial(now), events);
            Step(o, c, e).link.state == Reconnecting && ArmedOnce(o, c.timers, Step(o, c, e).timers)
  {
    ReconnectBackoff(o, Initial(now), events);
    LossArmsReconnect(o, Run(o, Initial(now), events), e);
  }
}
