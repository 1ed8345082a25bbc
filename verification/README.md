# Flood-alert pipeline: decision logic in Dafny

This project models the three pieces of decision logic in a community flood-alert pipeline, with the network, database and web-framework layers removed:

- **`Hidrologia`** (`hidrologia.dfy`) models the ETL processor `HidrologiaProcessor` of the back end. From a raw measurement `(ts, nivel_m, lluvia_mm)` and the rolling history it derives:
  - ΔH, the rate of rise, the rain intensity, the 30-minute projection and the hydraulic slope;
  - the *persistence*: the unbroken run of recent measurements above 0.5 m.

  It then decides whether an alert is raised (`evaluar_alerta`) and picks the alert colour ROJA / AMARILLA / VERDE.
- **`Gateway`** (`gateway.dfy`) models the field gateway:
  - a 12-sample buffer per sensor node;
  - the NORMAL / PRECAUCION / ALERTA classification from a five-sample moving average and a two-point slope;
  - one SMS per community leader on ALERTA.
- **`Cola`** (`cola.dfy`) models the in-memory message queue service:
  - validation and append on POST `/mensaje`;
  - FIFO pop on `/consumir`;
  - clear on `/limpiar`;
  - listing on `/mensajes`.
- **`Pipeline`** (`pipeline.dfy`) states how the queue and the processor fit together: a level the queue admits as numeric text is lost by the processor.
- `Options`, `JsonValues` and `Sequences` are small shared modules:
  - `JsonValues` holds decoded JSON values and Python's `float()` applied to them;
  - `Sequences` holds the bounded append shared by the processor's 100-entry history and the gateway's 12-sample buffers.

Measurements are `real`, so the thresholds are stated exactly. Timestamps are numbers: hours in `Hidrologia` and Unix seconds in `Gateway`. Text parsing that the source delegates to Python is passed in as a function parameter:
- `parseFloat` stands for `float()` on text;
- `parsesAsIso` stands for `datetime.fromisoformat` accepting a timestamp.

Every state change is a pure function from the old state to the new state and a reply. This covers the processor's history, the gateway's buffers and the queue.

Where the comments in the code and the code itself disagree, the model follows the code:
- **ΔH.** The docstring of `delta_h` (back/app.py:46) calls ΔH the height difference "respecto al nivel base", relative to the base level. The code (back/app.py:49) subtracts `altura_inicial_m`, the upstream elevation of the reach, 2595.4 m, as the docstring's second line says. (`base_level` is the level itself, so a difference from the base level would always be 0.)
- **Persistence.** The docstring of `evaluar_alerta` says the persistence must be "> 3". The code tests `>= 3`.

## Model

| member | source | states |
|---|---|---|
| Hidrologia.DeltaH | back/app.py:44-49 | ΔH added back to the upstream elevation 2595.4 gives the level, so ΔH is negative exactly when the level is below that elevation |
| Hidrologia.RateOfRise | back/app.py:51-74 | absent iff there is no previous measurement or the elapsed time is ≤ 0; otherwise the rate times the elapsed hours equals the level change, and the rate is positive iff the level rose |
| Hidrologia.RainIntensity | back/app.py:76-98 | absent in exactly the same cases as the rate of rise; otherwise the intensity times the elapsed hours equals the current rainfall |
| Hidrologia.Projection30 | back/app.py:100-110 | absent iff the rate of rise is absent; otherwise twice the projected increase equals the rate, so half an hour at the current rate |
| Hidrologia.HydraulicSlope | back/app.py:112-124 | slope times the reach length (3200 m) equals the upstream elevation plus the level minus the downstream elevation |
| Hidrologia.HydraulicSlopeIncreasing | back/app.py:112-124 | a higher level gives a strictly steeper slope; the slope is zero only at level −5.8 m |
| Hidrologia.RecentWindow | back/app.py:134 | the window is the last min(10, n) earlier measurements |
| Hidrologia.TrailingRunAbove | back/app.py:134-138 | counting back from the newest, every counted measurement is above the threshold and the one just before them is not |
| Hidrologia.TrailingRunUnique | back/app.py:134-138 | those two properties determine the run length uniquely |
| Hidrologia.Persistence | back/app.py:126-140 | 0 iff the current level is ≤ the threshold; at most 11 and at most 1 + the history length; if positive, the last p−1 earlier measurements are all above the threshold, and when the count stopped inside the window, the measurement before them is not above |
| Hidrologia.CountPersistence | back/app.py:126-140 | the source's reverse walk with `break` over the last ten measurements returns exactly `Persistence` |
| Hidrologia.PersistenceAtLeast | back/app.py:133-138 | a run of j recent earlier measurements above the threshold gives a persistence of at least j + 1 |
| Hidrologia.Previous | back/app.py:148-151 | the previous measurement is absent iff the history is empty; otherwise it is the newest entry |
| Hidrologia.Remember | back/app.py:177-180 | the new history has length min(100, n + 1), ends with the new measurement and is the newest suffix of old history + measurement |
| Hidrologia.ProcessMeasurement | back/app.py:142-182 | copies `ts`/level/rain and sets the base level to the level; rate, intensity and persistence are computed against the history before appending; the history is then updated by `Remember` |
| Hidrologia.HistoryStaysBounded | back/app.py:177-180 | after any sequence of measurements the history holds at most 100 entries, and the last one is the newest measurement |
| Hidrologia.HistoryIsNewestMeasurements | back/app.py:177-180 | after any sequence of measurements the history is exactly the newest 100 of the earlier history followed by those measurements |
| Sequences.KeepAllIsNewest | back/app.py:177-180 | repeated bounded appends, starting from at most `cap` elements, leave exactly the newest `cap` of everything appended |
| Sequences.KeepNewestOfNewest | back/app.py:177-180 | one bounded append to the newest `cap` elements gives the newest `cap` of the extended sequence |
| Hidrologia.PersistenceGrowsByAtMostOne | back/app.py:126-180 | for two consecutive measurements, the second persistence is at most the first plus one |
| Hidrologia.PersistenceStep | back/app.py:126-180 | the same for any threshold: persistence after remembering one measurement is at most that measurement's persistence plus one |
| Hidrologia.EvaluateAlert | back/app.py:184-216 | alert iff level > 0.5, or the projection is present and > 0.6, or the rate of rise is present and > 0.1, or persistence ≥ 3; Python's truthiness guard changes nothing |
| Hidrologia.PersistenceImpliesAlert | back/app.py:126-214 | with the default threshold 0.5, any positive persistence computed by processing means an alert |
| Hidrologia.AlertColour | back/app.py:224-230 | ROJA iff level > 0.7, AMARILLA iff 0.5 < level ≤ 0.7, VERDE iff level ≤ 0.5 |
| Hidrologia.ColourAboveGreenMeansAlert | back/app.py:199-230 | a ROJA or AMARILLA colour is only chosen for a result that raises an alert |
| Hidrologia.ProjectionAlertIsSentGreen | back/app.py:204-230 | an alert raised by the projection alone, with level ≤ 0.5, is sent as VERDE |
| Hidrologia.HandleMeasurement | back/app.py:361-369 | a colour is posted iff `evaluar_alerta` holds, and it is the level's colour; a level above 0.5 always posts a non-VERDE colour |
| Hidrologia.ArithmeticLevel | back/app.py:44-49 | the subtraction in `delta_h` works exactly for a number or a boolean, and where it works the value agrees with `float()` |
| Hidrologia.HandleConsumed | back/app.py:352-381 | a consumed message whose level is neither a number nor a boolean raises inside processing and is lost: the history is unchanged and no alert is sent; any other message is handled as `HandleMeasurement` |
| Pipeline.TextLevelIsQueuedThenLost | cola/app.py:32-45 | a level sent as numeric text passes validation and is queued unchanged, and processing that message loses it with the history unchanged |
| Gateway.AverageLevels | simulacion/gateway.py:80-82 | the levels of the newest min(5, n) samples, in order |
| Gateway.MovingAverage | simulacion/gateway.py:82 | the average times the window size equals the sum of the window |
| Gateway.SlopeDivisor | simulacion/gateway.py:83 | the divisor is at least 1 and at least Δt, and it is one of the two |
| Gateway.Slope | simulacion/gateway.py:83 | the slope times the divisor equals the rise between the two newest samples |
| Gateway.Classify | simulacion/gateway.py:84-89 | ALERTA iff ma ≥ 0.55 or slope ≥ 0.007; PRECAUCION iff neither and ma ≥ 0.45; NORMAL otherwise (inclusive thresholds) |
| Gateway.BufferOf | simulacion/gateway.py:77 | a known node's buffer is its stored buffer; a node never heard from has an empty buffer |
| Gateway.AnalyzeNode | simulacion/gateway.py:75-89 | fewer than two samples, including an unknown node, is NORMAL; otherwise the threshold rule on the moving average and slope |
| Gateway.ClassifyMonotoneInAverage | simulacion/gateway.py:84-89 | raising the average with the slope fixed never lowers the status in the order NORMAL < PRECAUCION < ALERTA |
| Gateway.ClassifyMonotoneInSlope | simulacion/gateway.py:84-89 | raising the slope with the average fixed never lowers the status |
| Gateway.SumAtLeast | simulacion/gateway.py:82 | values that are all ≥ t sum to at least t times their count |
| Gateway.SumBelow | simulacion/gateway.py:82 | a non-empty sequence of values all < t sums to less than t times its count |
| Gateway.AverageAtLeast | simulacion/gateway.py:82 | if every averaged level is ≥ t, the moving average is ≥ t |
| Gateway.AverageBelow | simulacion/gateway.py:82 | if every averaged level is < t, the moving average is < t |
| Gateway.SustainedHighLevelAlerts | simulacion/gateway.py:82-85 | if all the newest (up to five) levels are ≥ 0.55 m, the node is in ALERTA |
| Gateway.QuietBufferIsNormal | simulacion/gateway.py:82-89 | newest levels all < 0.45 m plus a last rise < 0.007 m make the node NORMAL, however close in time the samples are |
| Gateway.Push | simulacion/gateway.py:146-148 | the buffer length becomes min(12, n + 1); the buffer ends with the new sample and keeps the newest samples |
| Gateway.Store | simulacion/gateway.py:146-148 | the node's buffer becomes the old one (empty if new) with the sample pushed; keys gain only the node; every other buffer is unchanged |
| Gateway.Receive | simulacion/gateway.py:131-148 | node defaults to "UNKNOWN", missing level/rain to 0, missing time to now; an unconvertible level or rain drops the packet; otherwise the sample holds the converted level, the rainfall is the converted rain, and only that node's buffer changes, by `Push` |
| Gateway.ReceiveKeepsBounded | simulacion/gateway.py:146-148 | if every buffer holds at most 12 samples before a packet, this still holds after it |
| Gateway.MaybeAlert | simulacion/gateway.py:110-117 | one message per leader, in order, with the node's alert text, iff the node is in ALERTA; none otherwise |
| Gateway.HandlePacket | simulacion/gateway.py:128-156 | a dropped packet changes nothing and sends nothing; an accepted one yields the received buffers and exactly `MaybeAlert` on them for the packet's node; buffers stay bounded; messages are sent only when the updated buffers put the node in ALERTA |
| JsonValues.ToFloat | cola/app.py:34-35 | numbers convert to themselves, booleans to 1.0 / 0.0, text as Python's number syntax allows; null, arrays and objects are rejected |
| Cola.FirstMissing | cola/app.py:26-29 | every field before the reported index is present, and the field at the index is missing |
| Cola.Check | cola/app.py:25-37 | the first missing field is reported in the order ts, nivel_m, lluvia_mm; a present but non-text ts is a 500 crash; with every field present, the first value to fail, in the order ts (not ISO), nivel_m, lluvia_mm (not convertible), is reported as a validation error; success iff ts is ISO text and both numbers convert |
| Cola.Stamp | cola/app.py:39-43 | the stored message keeps every input field; its keys are the input keys plus `recibido_en`, which holds the reception time |
| Cola.Post | cola/app.py:19-54 | created iff validation passes, with exactly one stamped message appended, `id = newLength − 1` and `total = newLength`; every rejection (400 or 500) leaves the queue unchanged |
| Cola.IdIsPositionNotIdentity | cola/app.py:45-51 | after a consume, the next accepted message gets the same `id` as the one accepted before it |
| Cola.Consume | cola/app.py:64-74 | empty queue: 404 and unchanged; otherwise it returns the oldest message, removes only it and reports oldLength − 1 remaining |
| Cola.Clear | cola/app.py:76-84 | the queue becomes empty, and the count reported is the number of messages removed |
| Cola.ListAll | cola/app.py:56-62 | returns the queued messages in order with their count |
| Cola.ApplyConserves | cola/app.py:45-74 | for one post or consume, the delivered messages followed by the queue equal the old queue followed by the admitted messages |
| Cola.FifoOrder | cola/app.py:45-74 | across any run of posts and consumes, delivered ++ remaining == initial ++ admitted messages in posting order: nothing is lost, duplicated or reordered |
| Cola.DrainDeliversInOrder | cola/app.py:64-74 | consuming once per message delivers the whole queue oldest-first and leaves it empty |

## Left out

- I/O and external services are not modelled. This covers:
  - the Supabase insert (`guardar_supabase`);
  - the webhook POST and its status check in `enviar_alerta`;
  - the HTTP call in `consumir_cola`;
  - the gateway's `enviar_a_cola`;
  - the SMS back-ends (simulated log file, Twilio, GSM AT commands);
  - `update_ui_state` and all log files;
  - the UDP socket.

  In `Gateway.Reception`, the forwarded payload is represented only by the accepted sample and rainfall. The forwarded timestamp is not modelled. The gateway forwards the packet's own `ts` text, or a generated UTC text when it is missing or empty (simulacion/gateway.py:137-138, 153). When that text does not parse, the gateway still buffers the sample at the current time, but the queue refuses the forwarded message: 400, or 500 when `ts` is not text. The ESP32 firmware sends its timestamp as Unix-second digits (microcontroladores/Esp.py:41), which `fromisoformat` rejects. So its readings feed the gateway's detector but never reach the queue or the processor.
- The unreachable second body of `enviar_alerta`, after its first `return`, is dead code.
- The gateway's threads and `lock` are not modelled. Reception and analysis are taken in sequence on one buffer snapshot.
- Parsing and clocks are abstracted:
  - ISO-8601 timestamps are numbers;
  - `fromisoformat` and `float()` on text are the function parameters `parsesAsIso` and `parseFloat`;
  - `utcnow()` / `time.time()` are the parameters `now` and `receivedAt`.
- Hidrologia.RateOfRise: does not model the `except` branch, because timestamps here are plain numbers of hours. The branch is reached when one of the two timestamps carries a UTC offset and the other does not, e.g. "2024-05-01T10:00:00" then "2024-05-01T11:00:00Z". The queue accepts both, and their subtraction (back/app.py:63) raises TypeError, so the source reports no rate of rise. The model computes one. Other causes never reach the branch: a non-numeric level makes `delta_h` raise first (see `Hidrologia.HandleConsumed`), and the queue already refuses a timestamp that does not parse.
- Hidrologia.RainIntensity: does not model the `except` branch, because timestamps and rainfall are numbers here. The branch is reached by the same naive/aware timestamp pair (back/app.py:87), and by a rainfall sent as numeric text, which the queue admits. The source then reports no rain intensity; the model computes one.
- Hidrologia.HandleConsumed: a rainfall sent as numeric text is not modelled. The source keeps processing such a message, reports no rain intensity and stores the text; here rainfall is a number.
- Hidrologia.HandleMeasurement: when the measurement and the previous one mix a timestamp with a UTC offset and one without, the source has no rate of rise and no projection, so neither can raise its alert. The model computes both, so it can raise an alert through the rate of rise or the projection where the source cannot.
- Hidrologia.HandleMeasurement: it is the path for a message whose level the arithmetic accepts. The exception path of the main loop (back/app.py:379-381), which logs and drops a message, is modelled by `Hidrologia.HandleConsumed`. Exceptions raised after processing are not modelled: `guardar_supabase` and `enviar_alerta` catch their own.
- `if not medicion_anterior` also treats an empty dict as absent. Measurements here always have their fields.
- `persistencia`'s `.get('nivel_m', 0)` fallback is not modelled, because a stored measurement always has a level.
- `base_level` is the identity. It is folded into `Hidrologia.ProcessMeasurement` rather than given its own member.
- The `datos_rio` and `procesado_en` fields of the result record are constants and a clock reading. They are not modelled.
- Gateway.Receive: node ids that are JSON values other than text are not modelled; the model takes the node id as optional text. In the source a null, number or boolean id becomes a buffer key as it is. An array or object id is unhashable, so `setdefault` raises and the packet is dropped. A packet whose JSON is not an object at all is dropped too, because `.get` raises.
- Gateway.Receive: a JSON integer too large for a float is accepted here, because numbers are unbounded reals. In the source `float()` raises OverflowError on it and the packet is dropped.
- `Gateway.Packet.ts` merges a missing, empty and unparseable timestamp into None. All three fall back to the current time.
- Cola.Check: records which field failed validation instead of the Python exception text of the 400 reply.
- Cola.Check: a `nivel_m` or `lluvia_mm` that is a JSON integer too large for a float passes here, because numbers are unbounded reals. In the source `float()` raises OverflowError, which the validation does not catch, so the catch-all answers 500.
- Cola.Check: request bodies that are not JSON objects are not modelled; the model takes the body as a decoded object. In the source:
  - a body that is not JSON at all makes `get_json` raise, and the catch-all answers 500;
  - a null, number or boolean body makes the `in` test raise TypeError, answered 500;
  - an array or a string body goes through the `in` test as list or substring membership. A missing entry is answered 400. When all three names are present, indexing it with `'ts'` raises TypeError inside the validation `try`, answered 400.
- The queue service's concurrency is not modelled; every handler is taken as one atomic step on the queue. Flask's development server serves requests on threads, and nothing locks `cola_datos`. So `id` and `total_en_cola`, read after the append, can count another request's append. In `/consumir`, two consumers can both pass the emptiness test, and the second `pop(0)` then raises.
- The following queue-service paths are not modelled:
  - `/health`;
  - Flask routing and JSON encoding.
- The sensor simulator, the ESP32 firmware and the Raspberry Pi LoRa forwarder are not part of this model. They are hardware I/O, random timelines and forwarding loops.
- The web dashboard is not part of this model. It only displays stored results; `evaluar_alerta` is the back end's alert rule.
- Floating-point rounding is not modelled. All arithmetic is on exact reals.
- Non-finite numbers are not modelled. Python's JSON decoding accepts `NaN` and `Infinity`. With a NaN level `persistencia` is at least 1, because `nan <= 0.5` is false, yet `nivel > 0.5` is false too. `Hidrologia.PersistenceImpliesAlert` therefore holds only for real-valued levels.
