/**
 * How the queue service and the ETL processor fit together: what the queue admits
 * is not always something the processor can use.
 */
module Pipeline {
  import opened Options
  import opened JsonValues
  import Cola
  import Hidrologia

  /**
   * A level sent as numeric text passes the queue's validation, because `float`
   * accepts it, and is stored unchanged at the end of the queue. When the processor
   * takes it, the level cannot enter its arithmetic: the measurement is lost and the
   * processor's history is as it was.
   */
  lemma TextLevelIsQueuedThenLost(q: Cola.Queue, data: Cola.Message, receivedAt: string,
                                  parsesAsIso: string -> bool, parseFloat: string -> Option<real>,
                                  p: Hidrologia.Processor, ts: real, rain: real)
    requires Cola.Check(data, parsesAsIso, parseFloat) == Cola.Pass
    requires "nivel_m" in data && data["nivel_m"].JStr?
    ensures Cola.Post(q, data, receivedAt, parsesAsIso, parseFloat).1.Created?
    ensures var items := Cola.Post(q, data, receivedAt, parsesAsIso, parseFloat).0.items;
      |items| > 0 && "nivel_m" in items[|items| - 1] && items[|items| - 1]["nivel_m"] == data["nivel_m"]
    ensures Hidrologia.HandleConsumed(p, Hidrologia.Consumed(ts, data["nivel_m"], rain)) == (p, Hidrologia.Lost)
  {
  }
}
