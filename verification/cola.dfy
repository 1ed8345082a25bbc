/**
 * The in-memory message queue service that sits between the gateway and the ETL
 * processor: POST /mensaje validates a measurement and appends it, POST /consumir
 * pops the oldest message, POST /limpiar empties the queue and GET /mensajes lists
 * it. The queue is a value; every handler returns the next queue with its reply.
 *
 * `parsesAsIso` stands for `datetime.fromisoformat` accepting a timestamp text
 * (after its trailing `Z` is rewritten to `+00:00`); `parseFloat` stands for
 * `float()` on text, as in `JsonValues.ToFloat`.
 */
module Cola {
  import opened Options
  import opened JsonValues

  /** A message is the decoded JSON object of the request body. */
  type Message = map<string, Json>

  datatype Queue = Queue(items: seq<Message>)

  /** Fields checked for presence, in this order. */
  const RequiredFields: seq<string> := ["ts", "nivel_m", "lluvia_mm"]
  /** Field added to every stored message: the reception time. */
  const ReceivedAtKey: string := "recibido_en"

  /** Why a POST /mensaje is answered 400. */
  datatype Rejection = MissingField(field: string) | InvalidValue(field: string)

  /** Outcome of the validation part of POST /mensaje. */
  datatype Verdict =
    | Pass
    | Reject(why: Rejection)
    | Crash  // an exception outside the validated ones: answered 500

  datatype PostReply = Created(id: int, total: nat) | BadRequest(why: Rejection) | InternalError

  datatype ConsumeReply = NoMessages | Delivered(message: Message, remaining: nat)

  function PostStatus(r: PostReply): int {
    match r
    case Created(_, _) => 201
    case BadRequest(_) => 400
    case InternalError => 500
  }

  function ConsumeStatus(r: ConsumeReply): int {
    match r
    case NoMessages => 404
    case Delivered(_, _) => 200
  }

  /** Index of the first field of `fields` that `data` lacks, or `|fields|` if none. */
  function FirstMissing(data: Message, fields: seq<string>): (k: nat)
    ensures k <= |fields|
    ensures forall i :: 0 <= i < k ==> fields[i] in data
    ensures k < |fields| ==> fields[k] !in data
    decreases |fields|
  {
    if |fields| == 0 then 0
    else if fields[0] !in data then 0
    else 1 + FirstMissing(data, fields[1..])
  }

  /** Every required field is present and `ts` is text: the values are validated next. */
  predicate TextTimestamp(data: Message) {
    "ts" in data && "nivel_m" in data && "lluvia_mm" in data && data["ts"].JStr?
  }

  /**
   * Validation of POST /mensaje: presence of `ts`, `nivel_m`, `lluvia_mm` in that
   * order (the first missing one is reported), then `ts` must be ISO text and both
   * numbers must convert with `float`. A `ts` that is not text at all makes the
   * `.replace` call raise an exception the handler does not catch as a validation
   * error, so the request ends in the generic 500 branch.
   */
  function Check(data: Message, parsesAsIso: string -> bool, parseFloat: string -> Option<real>): (v: Verdict)
    ensures "ts" !in data ==> v == Reject(MissingField("ts"))
    ensures "ts" in data && "nivel_m" !in data ==> v == Reject(MissingField("nivel_m"))
    ensures "ts" in data && "nivel_m" in data && "lluvia_mm" !in data ==> v == Reject(MissingField("lluvia_mm"))
    ensures v == Crash <==> "ts" in data && "nivel_m" in data && "lluvia_mm" in data && !data["ts"].JStr?
    ensures v == Pass <==>
      && "ts" in data && "nivel_m" in data && "lluvia_mm" in data
      && data["ts"].JStr? && parsesAsIso(data["ts"].s)
      && ToFloat(data["nivel_m"], parseFloat).Some?
      && ToFloat(data["lluvia_mm"], parseFloat).Some?
    ensures TextTimestamp(data) && !parsesAsIso(data["ts"].s) ==> v == Reject(InvalidValue("ts"))
    ensures TextTimestamp(data) && parsesAsIso(data["ts"].s) && ToFloat(data["nivel_m"], parseFloat).None?
            ==> v == Reject(InvalidValue("nivel_m"))
    ensures TextTimestamp(data) && parsesAsIso(data["ts"].s) && ToFloat(data["nivel_m"], parseFloat).Some?
            && ToFloat(data["lluvia_mm"], parseFloat).None?
            ==> v == Reject(InvalidValue("lluvia_mm"))
  {
    var k := FirstMissing(data, RequiredFields);
    if k < |RequiredFields| then Reject(MissingField(RequiredFields[k]))
    else
      assert RequiredFields[0] in data && RequiredFields[1] in data && RequiredFields[2] in data;
      match data["ts"]
      case JStr(s) =>
        if !parsesAsIso(s) then Reject(InvalidValue("ts"))
        else if ToFloat(data["nivel_m"], parseFloat).None? then Reject(InvalidValue("nivel_m"))
        else if ToFloat(data["lluvia_mm"], parseFloat).None? then Reject(InvalidValue("lluvia_mm"))
        else Pass
      case _ => Crash
  }

  /**
   * The stored message: every field of the request, plus the reception time under
   * `recibido_en` (replacing a field of that name sent by the client).
   */
  function Stamp(data: Message, receivedAt: string): (m: Message)
    ensures m.Keys == data.Keys + {ReceivedAtKey}
    ensures forall key :: key in data && key != ReceivedAtKey ==> m[key] == data[key]
    ensures m[ReceivedAtKey] == JStr(receivedAt)
  {
    data[ReceivedAtKey := JStr(receivedAt)]
  }

  /**
   * POST /mensaje. An accepted message is appended at the end and answered 201 with
   * its position and the new length; any rejection leaves the queue as it was.
   */
  function Post(q: Queue, data: Message, receivedAt: string,
                parsesAsIso: string -> bool, parseFloat: string -> Option<real>): (out: (Queue, PostReply))
    ensures out.1.Created? <==> Check(data, parsesAsIso, parseFloat) == Pass
    ensures out.1.Created? ==> out.0.items == q.items + [Stamp(data, receivedAt)]
    ensures out.1.Created? ==> out.1.id == |out.0.items| - 1 && out.1.total == |out.0.items|
    ensures !out.1.Created? ==> out.0 == q
    ensures PostStatus(out.1) == 400 <==> Check(data, parsesAsIso, parseFloat).Reject?
    ensures out.1.BadRequest? ==> out.1.why == Check(data, parsesAsIso, parseFloat).why
  {
    match Check(data, parsesAsIso, parseFloat)
    case Reject(why) => (q, BadRequest(why))
    case Crash => (q, InternalError)
    case Pass =>
      var next := Queue(q.items + [Stamp(data, receivedAt)]);
      (next, Created(|next.items| - 1, |next.items|))
  }

  /** POST /consumir: the oldest message is removed and returned; an empty queue answers 404. */
  function Consume(q: Queue): (out: (Queue, ConsumeReply))
    ensures out.1.NoMessages? <==> |q.items| == 0
    ensures out.1.NoMessages? ==> out.0 == q && ConsumeStatus(out.1) == 404
    ensures out.1.Delivered? ==> q.items == [out.1.message] + out.0.items
    ensures out.1.Delivered? ==> out.1.remaining == |q.items| - 1 == |out.0.items|
  {
    if |q.items| == 0 then (q, NoMessages)
    else
      var rest := q.items[1..];
      (Queue(rest), Delivered(q.items[0], |rest|))
  }

  /** POST /limpiar: the queue is emptied and the number of discarded messages reported. */
  function Clear(q: Queue): (out: (Queue, nat))
    ensures out.0.items == [] && out.1 == |q.items|
  {
    (Queue([]), |q.items|)
  }

  /** GET /mensajes: the count and the messages in queue order; the queue is not changed. */
  function ListAll(q: Queue): (out: (nat, seq<Message>))
    ensures out.1 == q.items && out.0 == |q.items|
  {
    (|q.items|, q.items)
  }

  /**
   * The `id` of a created message is its position at the time of posting, not an
   * identity: after a consume, the next accepted message is given the same id as
   * the one accepted before it.
   */
  lemma IdIsPositionNotIdentity(q: Queue, a: Message, b: Message, at1: string, at2: string,
                                parsesAsIso: string -> bool, parseFloat: string -> Option<real>)
    requires Check(a, parsesAsIso, parseFloat) == Pass && Check(b, parsesAsIso, parseFloat) == Pass
    ensures var (q1, first) := Post(q, a, at1, parsesAsIso, parseFloat);
      var q2 := Consume(q1).0;
      var second := Post(q2, b, at2, parsesAsIso, parseFloat).1;
      first.Created? && second.Created? && first.id == second.id == |q.items|
  {
  }

  // ---------------------------------------------------------------- FIFO behaviour

  /** A request to the queue service. */
  datatype Request = PostRequest(data: Message, receivedAt: string) | ConsumeRequest | ClearRequest

  /** Applies one request; the second component is the message it delivered, if any. */
  function Apply(q: Queue, r: Request, parsesAsIso: string -> bool, parseFloat: string -> Option<real>)
    : (Queue, seq<Message>)
  {
    match r
    case PostRequest(data, at) => (Post(q, data, at, parsesAsIso, parseFloat).0, [])
    case ConsumeRequest =>
      var (next, reply) := Consume(q);
      (next, if reply.Delivered? then [reply.message] else [])
    case ClearRequest => (Clear(q).0, [])
  }

  /** Applies the requests in order; returns the final queue and all delivered messages. */
  function Run(q: Queue, rs: seq<Request>, parsesAsIso: string -> bool, parseFloat: string -> Option<real>)
    : (Queue, seq<Message>)
    decreases |rs|
  {
    if |rs| == 0 then (q, [])
    else
      var step := Apply(q, rs[0], parsesAsIso, parseFloat);
      var rest := Run(step.0, rs[1..], parsesAsIso, parseFloat);
      (rest.0, step.1 + rest.1)
  }

  /** The stored form of a posted message that passes validation; nothing for other requests. */
  function AdmittedBy(r: Request, parsesAsIso: string -> bool, parseFloat: string -> Option<real>)
    : seq<Message>
  {
    if r.PostRequest? && Check(r.data, parsesAsIso, parseFloat) == Pass
    then [Stamp(r.data, r.receivedAt)] else []
  }

  /** The stored form of every posted message that passes validation, in request order. */
  function Admitted(rs: seq<Request>, parsesAsIso: string -> bool, parseFloat: string -> Option<real>)
    : seq<Message>
    decreases |rs|
  {
    if |rs| == 0 then []
    else AdmittedBy(rs[0], parsesAsIso, parseFloat) + Admitted(rs[1..], parsesAsIso, parseFloat)
  }

  /** One post or consume: what it delivers, then what is queued, is the old queue plus what it admits. */
  lemma ApplyConserves(q: Queue, r: Request, parsesAsIso: string -> bool, parseFloat: string -> Option<real>)
    requires !r.ClearRequest?
    ensures Apply(q, r, parsesAsIso, parseFloat).1 + Apply(q, r, parsesAsIso, parseFloat).0.items
            == q.items + AdmittedBy(r, parsesAsIso, parseFloat)
  {
  }

  /**
   * FIFO: with no clear in between, the messages delivered followed by those still
   * queued are exactly the messages queued at the start followed by the admitted
   * ones, in posting order. Nothing is lost, duplicated or reordered.
   */
  lemma {:induction false} FifoOrder(q: Queue, rs: seq<Request>,
                                     parsesAsIso: string -> bool, parseFloat: string -> Option<real>)
    requires forall i :: 0 <= i < |rs| ==> !rs[i].ClearRequest?
    ensures Run(q, rs, parsesAsIso, parseFloat).1 + Run(q, rs, parsesAsIso, parseFloat).0.items
            == q.items + Admitted(rs, parsesAsIso, parseFloat)
    decreases |rs|
  {
    if |rs| > 0 {
      var step := Apply(q, rs[0], parsesAsIso, parseFloat);
      var rest := Run(step.0, rs[1..], parsesAsIso, parseFloat);
      RunUnfold(q, rs, parsesAsIso, parseFloat);
      ApplyConserves(q, rs[0], parsesAsIso, parseFloat);
      assert !rs[0].ClearRequest?;
      assert forall i :: 0 <= i < |rs[1..]| ==> !rs[1..][i].ClearRequest? by {
        forall i | 0 <= i < |rs[1..]| ensures !rs[1..][i].ClearRequest? {
          assert rs[1..][i] == rs[i + 1];
        }
      }
      FifoOrder(step.0, rs[1..], parsesAsIso, parseFloat);
      Regroup(step.1, rest.1, rest.0.items, q.items, step.0.items,
              AdmittedBy(rs[0], parsesAsIso, parseFloat), Admitted(rs[1..], parsesAsIso, parseFloat));
    }
  }

  lemma Regroup<T>(o1: seq<T>, o2: seq<T>, q2: seq<T>, q0: seq<T>, q1: seq<T>, a1: seq<T>, a2: seq<T>)
    requires o1 + q1 == q0 + a1
    requires o2 + q2 == q1 + a2
    ensures (o1 + o2) + q2 == q0 + (a1 + a2)
  {
    calc {
      (o1 + o2) + q2;
      o1 + (o2 + q2);
      o1 + (q1 + a2);
      (o1 + q1) + a2;
      (q0 + a1) + a2;
    }
  }

  lemma RunUnfold(q: Queue, rs: seq<Request>, parsesAsIso: string -> bool, parseFloat: string -> Option<real>)
    requires |rs| > 0
    ensures var step := Apply(q, rs[0], parsesAsIso, parseFloat);
      var rest := Run(step.0, rs[1..], parsesAsIso, parseFloat);
      && Run(q, rs, parsesAsIso, parseFloat) == (rest.0, step.1 + rest.1)
      && Admitted(rs, parsesAsIso, parseFloat)
         == AdmittedBy(rs[0], parsesAsIso, parseFloat) + Admitted(rs[1..], parsesAsIso, parseFloat)
  {
  }

  /** `n` consume requests in a row. */
  function Consumes(n: nat): (rs: seq<Request>)
    ensures |rs| == n && forall i :: 0 <= i < n ==> rs[i] == ConsumeRequest
  {
    seq(n, i => ConsumeRequest)
  }

  /** Draining a queue with one consume per message delivers all of it, oldest first, and empties it. */
  lemma {:induction false} DrainDeliversInOrder(q: Queue, parsesAsIso: string -> bool, parseFloat: string -> Option<real>)
    ensures Run(q, Consumes(|q.items|), parsesAsIso, parseFloat) == (Queue([]), q.items)
    decreases |q.items|
  {
    var n := |q.items|;
    if n > 0 {
      var rs := Consumes(n);
      assert rs[1..] == Consumes(n - 1);
      var q1 := Queue(q.items[1..]);
      assert Apply(q, rs[0], parsesAsIso, parseFloat) == (q1, [q.items[0]]);
      DrainDeliversInOrder(q1, parsesAsIso, parseFloat);
      assert [q.items[0]] + q.items[1..] == q.items;
    }
  }
}
