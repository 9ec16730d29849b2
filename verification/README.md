# Verified model of a zero-trust control plane

A Dafny model of the stateful cores of a zero-trust control plane for a small data centre: a NETCONF
server in front of two leaf switches, a sensor that streams its events, an agent that turns alerts into
drop rules, and the stores around them. What is proved is what each core keeps over every run, or what
two of them do to each other's output.

`dafny verify dfyconfig.toml` checks the whole project.

| module | what it models |
|---|---|
| `Text`, `Sorting`, `Recent` | the operations of Python's texts, sorts and bounded queues that the cores use |
| `Framing`, `Transparency`, `NetconfSession` | end-of-message and chunked framing (RFC 6242 sections 4.2 and 4.3) over a stream cut anywhere, and the session on top of it |
| `EventsStore` | the capped, expiring sorted sets of events |
| `KnowledgeGraph`, `PolicyMatrix` | kill chains and the policy matrix written to a graph and read back |
| `FlowWindow`, `FlowAggregator`, `FlowBatchDispatcher`, `FlowReadings` | flows to windows, windows to records, records to suspects; `FlowReadings` says what records, keys, scores and dispatches mean for the flows themselves |
| `Policy`, `DecisionAgent`, `AgentOutcomes`, `AgentRuns`, `SharedAgent`, `Safety` | decisions, the pipeline of one alert with its parallel fork, its outcome case by case in terms of what the collaborators say, runs over alerts one after another and over alerts that overlap, limiter and breaker |
| `RuleDistribution`, `RuleRuns`, `RuleReadings` | rules routed to two leaves from NETCONF sessions and REST calls; `RuleReadings` says for addresses, operations, answers and certificates what each case comes to |
| `Fanout`, `EventTail` | event fan-out to streaming clients, and the tailer of the sensor's file |
| `TamperLog` | the signed audit log and its report |

Classes stand where the source changes state: a method's contract gives its new state as a function of the
old one, and the lemmas speak about that function. What such a function computes is told a second time,
without it: as a condition on fields and addresses, as a number of positions, or as a literal result. Where
the source leaves a value to the outside (a model's answer, a clock, a broken connection, the order in which
a graph returns rows) it is a parameter, and the lemmas hold for every value of it. Hashes and signatures
are arbitrary functions, taken as injective only where a lemma says so.

## Where the code differs from what is said about it

- The chunk decoder accepts signed sizes, and a negative one sends the scan back. The scan ends if and only
  if it is at no position twice, and then within twice as many turns as the text has characters
  (`Framing.EndsIffNoReturn`, `Framing.ScanEndsIff`); `Framing.SignedSizeSpins` has an input on which it
  never ends, `Framing.TurnsBackAndEnds` one on which it turns back and ends all the same.
- The receiver looks at its buffer once per read, so of two messages that arrive together the second waits
  until something else is read (`Transparency.SecondFrameWaits`; `Framing.NothingLeftBehindIff` and
  `NetconfSession.SessionHandlesAllIff` have the exact condition).
- In chunked mode the end-of-message mark still ends a message, so a chunked message that holds it is cut
  (`Transparency.SurvivesIffTransparent`, `Transparency.EomBreaksChunked`).
- If the breaker raises while a success is recorded, the rule stands in the network and the outcome says
  error (`DecisionAgent.UnrecordedSuccess`; `DecisionAgent.BackendAskedIff` has the exact condition).
- A cache hit keeps the destination of the cached decision: only the source and the rule id are those of
  the live alert, and the key holds the destination's zone, not its address (`AgentRuns.HitEnforces`,
  `AgentRuns.SecondKeepsDestination`, and `AgentRuns.OldTargetBlocked` for two addresses).
- The breaker is asked once, early. Of alerts that overlap, a turn hands a rule over exactly when its alert
  is past the breaker and has room in the limits, whether the breaker is open by then or not
  (`SharedAgent.HandsOverIff`, `SharedAgent.SomeTurnHandsOverIff`); nobody gets past it while it is open
  (`SharedAgent.OnlyPastClosed`). `SharedAgent.PushedWhileOpen` has a run to such a push for every
  threshold, the default settings included (`SharedAgent.DefaultsAreRoomy`).
- With a leaf's connection down, a NETCONF push falls back to the session's own client, so a rule can
  come to stand on both leaves; REST does not fall back for sources in a zone (`RuleDistribution.SameTargetIff`,
  `RuleRuns.PlacedIff`, `RuleRuns.DownThenUpDuplicates`).
- A delete can report success and leave the rule standing. Over NETCONF it does when a leaf that holds the
  rule is not connected (`RuleRuns.DeletedIff`, `RuleRuns.DeleteMissesDownLeaf`); over REST also when such a
  leaf refuses and the other answers, or when no leaf is connected at all (`RuleRuns.RestDeletedIff`,
  `RuleRuns.RestDeleteMisses`).
- Deleting an OpenConfig set deletes a rule named like the set, while its entries stand under other ids:
  none of them goes (`RuleRuns.SetDeleteKeepsEntries`).
- The adapter's header says an agent's action is forced to DROP; the code refuses every other action
  (`RuleRuns.AgentDeniedIff`).
- A streaming client dropped for its full queue is not told (`Fanout.DroppedIffFull`,
  `Fanout.DroppedForGood`; `Fanout.SlowClientDropped` has a run).
- A line that the tailer sees half written is lost (`EventTail.HalfLineLost`; `EventTail.LinesReadIff` has
  the exact condition).
- The tailer's cursor counts characters after line ends have been translated: lines that end in a return
  and a newline leave it short, and their last ones are read again (`EventTail.CursorExactIff`,
  `EventTail.ReturnsReadTwice`).
- The description of the synthetic alert's severity ranks scans, bursts and beacons one step above the
  code (`FlowBatchDispatcher.SeverityAsDescribedIff`, and `FlowBatchDispatcher.ScanComesOutMilder` for one).
- A logger that restarts on a file with unreadable lines among the last ones remembers fewer entries than
  it could (`TamperLog.RestartMirrorsIff`, and `TamperLog.RestartForgets` for a file).

## Model

| member | source | states |
|---|---|---|
| Framing.DecodeChunks | secure-framework/netconf/netconf_session.py:209-241 | the decoding loop, backward jumps and positions counted from the end included, computes what the scan ends with, and tells when it never ends |
| Framing.DecoderInvertsChunking | secure-framework/netconf/netconf_session.py:209-241 | for chunks of any content, decoding the chunked text gives their concatenation, less white space at both ends and nothing else |
| Text.StripIs | secure-framework/netconf/netconf_session.py:239-247 | stripping takes white space away at both ends and nothing else: every text is white space, its stripped text and white space |
| Text.SpaceIs | secure-framework/netconf/netconf_session.py:239-247 | the ten characters that count as white space |
| Text.ParseIntIff | secure-framework/netconf/netconf_session.py:216-222 | a chunk size is read exactly when, stripped and less a sign, it is digits with single underscores between; and which number it is |
| Framing.CheckIs | secure-framework/netconf/netconf_session.py:199-249 | what a look at the buffer comes to: the text before the first mark, or what the chunks before it decode to, less white space at both ends, with what stands behind the mark kept; nothing is delivered exactly when there is no mark |
| Framing.NewlineInFront | secure-framework/netconf/netconf_session.py:245-249 | a message behind a newline is delivered without it |
| Framing.TurnIs | secure-framework/netconf/netconf_session.py:209-216 | one turn of the scan where no complete header starts |
| Framing.HeaderIs | secure-framework/netconf/netconf_session.py:213-236 | one turn at a header with an unsigned size: as many characters as there are, and a newline behind them passed over; an unreadable size ends the scan |
| Framing.SignedHeaderIs | secure-framework/netconf/netconf_session.py:213-236 | one turn at a header with a negative size, places in front of the text counted from its end |
| Framing.FrameIs | secure-framework/netconf/netconf_session.py:268-283 | the frames of short responses, letter by letter |
| Framing.ForwardIff | secure-framework/netconf/netconf_session.py:213-236 | a turn of the scan moves forward exactly when its size exceeds minus the header's length; unsigned sizes always do |
| Framing.ScanEndsIff | secure-framework/netconf/netconf_session.py:209-241 | whichever way its turns lead, the scan ends if and only if it has ended after twice as many turns as the text has characters, and what it then has copied is what it ends with |
| Framing.EndsIffNoReturn | secure-framework/netconf/netconf_session.py:209-241 | the scan ends if and only if it is at no position twice |
| Framing.MovesOnIff | secure-framework/netconf/netconf_session.py:213-236 | the scan never turns back exactly when every header it visits carries a size larger than minus its own length |
| Framing.MovingOnEnds | secure-framework/netconf/netconf_session.py:209-241 | a scan that never turns back ends |
| Framing.UnsignedSizesDecode | secure-framework/netconf/netconf_session.py:209-241 | with unsigned sizes in the headers it visits, as the grammar requires, the scan always ends |
| Framing.SignedSizeSpins | secure-framework/netconf/netconf_session.py:209-241 | a concrete input with a negative size on which the scan never ends |
| Framing.TurnsBackAndEnds | secure-framework/netconf/netconf_session.py:209-241 | a concrete input whose second header sends the scan back, where it ends and delivers the first chunk |
| Framing.ReceiverFollowsStream | secure-framework/netconf/netconf_session.py:191-266 | fed any cutting of a stream of self-delimiting messages, the receiver returns a prefix in order and its buffer is exactly the undelivered rest |
| Framing.NothingLeftBehindIff | secure-framework/netconf/netconf_session.py:191-266 | everything that arrived has been returned exactly when no burst outruns the reads |
| Transparency.FramesSurviveCutting | secure-framework/netconf/netconf_session.py:191-283 | messages framed by the writer and cut anywhere come back as a prefix, in order, with the buffer holding exactly the rest, in both modes |
| Transparency.SurvivesIffTransparent | secure-framework/netconf/netconf_session.py:191-283 | a message survives every cutting of its frame if and only if it is transparent: stripped, and free of the marks that end a message early in its mode |
| Transparency.XmlIsTransparent | secure-framework/netconf/netconf_session.py:191-283 | messages from '<' to '>' without either delimiter are transparent in both modes |
| Transparency.EomBreaksChunked | secure-framework/netconf/netconf_session.py:199-247 | a chunked message that holds the end-of-message mark is broken by some cutting |
| Transparency.SecondFrameWaits | secure-framework/netconf/netconf_session.py:191-266 | of two frames arriving in one read the first message is returned and the second frame stays whole in the buffer |
| Transparency.DeliveredIsStripped | secure-framework/netconf/netconf_session.py:191-266 | every message returned is stripped, whatever was sent |
| NetconfSession.Session.ReceiveMessage | secure-framework/netconf/netconf_session.py:191-266 | reads, with timeouts and closings, until one message is complete, as the specification of reception says; what a message is says `Framing.CheckIs` |
| NetconfSession.ReadIs | secure-framework/netconf/netconf_session.py:252-266 | a read that times out changes nothing; the end of the stream or a failing read ends reception |
| NetconfSession.Session.HandleRpc | secure-framework/netconf/netconf_session.py:300-438 | through every branch and both exception handlers, with sends that fail or not, a request adds exactly one packet, and it carries what the elements of the parsed request call for |
| NetconfSession.PacketIsDue | secure-framework/netconf/netconf_session.py:304-438 | over the fields of the parsed request: get-config is answered by the configuration whatever else is present, else a get by the schemas exactly when its filter names the monitoring model and by the state otherwise, then edit-config, then get-schema; ok exactly when none of the four is present; an error under the id 1 when it did not parse |
| NetconfSession.ClosesIff | secure-framework/netconf/netconf_session.py:411-428 | a request closes the session exactly when close-session is the first element in it that is looked for |
| NetconfSession.Session.Dispatch | secure-framework/netconf/netconf_session.py:304-433 | the guarded part raises only where it has sent nothing; otherwise it has sent exactly the reply due |
| NetconfSession.Session.Fetch | secure-framework/netconf/netconf_session.py:338-409 | the branches that ask someone: the first element present decides who is asked and what the reply is |
| NetconfSession.Session.ServeRpcs | secure-framework/netconf/netconf_session.py:716-742 | the RPC loop sends exactly the replies due to the requests it handles |
| NetconfSession.Session.Run | secure-framework/netconf/netconf_session.py:663-742 | a session sends its hello in end-of-message framing and then the replies, all in the one negotiated mode |
| NetconfSession.OneReplyEach | secure-framework/netconf/netconf_session.py:300-438 | over a whole list of requests, replies come one each, in order, in the one framing, each meeting its request: message-id, and an error exactly when it did not parse or could not be served |
| NetconfSession.MeetsOne | secure-framework/netconf/netconf_session.py:300-438 | for each request and answer there is exactly one reply that meets it |
| NetconfSession.NothingAfterClose | secure-framework/netconf/netconf_session.py:663-742 | nothing is handled after a close-session or a failed write |
| NetconfSession.SessionOpensIff | secure-framework/netconf/netconf_session.py:663-715 | no request is handled without a sent server hello and a client hello that is not empty; chunked exactly when the client hello names version 1.1 |
| NetconfSession.SixtyEmptyEnd | secure-framework/netconf/netconf_session.py:716-742 | fifty-nine empty messages in a row are passed over and the sixtieth ends the session |
| NetconfSession.RequestForgetsIdle | secure-framework/netconf/netconf_session.py:716-742 | a request starts the count of empty messages anew |
| NetconfSession.ReceiveExactly | secure-framework/netconf/netconf_session.py:191-266 | over a stream with timeouts and cuts, one reception gives exactly the next message and leaves the rest |
| NetconfSession.SessionHandlesPrefix | secure-framework/netconf/netconf_session.py:663-742 | end to end, the requests handled are a prefix of the client's requests, unchanged and in order, in the mode the client's hello asks for |
| NetconfSession.SessionHandlesAllIff | secure-framework/netconf/netconf_session.py:663-742 | with links up and the whole stream arriving, the requests handled are the first n up to a close, and n is all of them exactly when no burst of requests outruns the reads |
| NetconfSession.UpToCloseIs | secure-framework/netconf/netconf_session.py:716-742 | the requests up to a close are the first of them, none but the last closes, and if any is missing the last does |
| EventsStore.Store.Push | intelligence-layer/src/storage/events_store.py:59-69 | adds or moves up the event, then prunes its set by age and by rank |
| EventsStore.Store.Prune | intelligence-layer/src/storage/events_store.py:138-151 | prunes both sets and reports, for each, how many members had expired and how many of the rest lay beyond the cap |
| EventsStore.IncrementalIsSelected | intelligence-layer/src/storage/events_store.py:59-69 | with a clock that never runs backwards, expiring and capping at every push equals one selection over the whole history: the newest distinct payloads by last push inside the window |
| EventsStore.HeldIff | intelligence-layer/src/storage/events_store.py:59-69 | a payload is held exactly when its last push is inside the retention window and fewer than the cap of payloads were last pushed later, or at the same time and come later in the order of texts; and it is held with the time of that push |
| EventsStore.HeldWasPushed | intelligence-layer/src/storage/events_store.py:59-69 | nothing is held that was not pushed |
| EventsStore.ClockMatters | intelligence-layer/src/storage/events_store.py:59-69 | a concrete history with a backward clock for which the two differ |
| EventsStore.CapKeepsNewest | intelligence-layer/src/storage/events_store.py:69-69 | removing ranks 0 to -1-cap keeps exactly the newest cap members |
| EventsStore.RankFromEitherEnd | intelligence-layer/src/storage/events_store.py:69-69 | a member's rank from below and its rank from above account for the whole set |
| EventsStore.CapUnseen | intelligence-layer/src/storage/events_store.py:88-93 | a read of no more than the cap sees what it would see had nothing been capped |
| KnowledgeGraph.Loader.LoadKillChains | intelligence-layer/src/storage/neo4j_kg.py:230-268 | the nested loops leave exactly the merged graph of the chains; the edge count goes up for every signal, merged or not |
| KnowledgeGraph.LoadedEdges | intelligence-layer/src/storage/neo4j_kg.py:249-268 | which edges a load leaves, and with distinct names and numbers which properties they have |
| KnowledgeGraph.LastOneSettles | intelligence-layer/src/storage/neo4j_kg.py:249-268 | of several stages that write one edge the last one loaded gives it its properties |
| KnowledgeGraph.LastOneDescribes | intelligence-layer/src/storage/neo4j_kg.py:234-248 | of several chains of one name the last one describes the node |
| KnowledgeGraph.EdgeCountIs | intelligence-layer/src/storage/neo4j_kg.py:249-268 | the edge count is the number of signals written, stage by stage and chain by chain |
| KnowledgeGraph.ReadKillChains | intelligence-layer/src/storage/neo4j_reader.py:170-216 | the grouping loops return the chains the specification rebuilds from the rows |
| KnowledgeGraph.GroupIs | intelligence-layer/src/storage/neo4j_reader.py:180-200 | a stage comes out of the grouping exactly when a row names it, and is made of exactly those rows |
| KnowledgeGraph.FirstRowGives | intelligence-layer/src/storage/neo4j_reader.py:180-200 | the first row that names a stage gives it everything but its signals, and the rows that name it give these |
| KnowledgeGraph.ReadIsWellFormed | intelligence-layer/src/storage/neo4j_reader.py:170-216 | what is read back is always well formed, whatever was loaded |
| KnowledgeGraph.RoundTripIff | intelligence-layer/src/storage/neo4j_reader.py:170-216 | loading and reading back gives the same chains for every order of nodes and rows if and only if names are distinct, stage numbers strictly increase, and each stage has a non-empty strictly ascending list of catalogued signals |
| PolicyMatrix.WritePolicyMatrix | intelligence-layer/src/storage/neo4j_kg.py:182-194 | the edges a matrix leaves in a wiped graph, and their count |
| PolicyMatrix.ReadPolicyMatrix | intelligence-layer/src/storage/neo4j_reader.py:136-144 | ALLOW rows, overwritten by DENY rows |
| PolicyMatrix.RoundTripIff | intelligence-layer/src/storage/neo4j_reader.py:136-144 | the matrix comes back exactly when every zone has its node and every verdict is one of the two |
| FlowWindow.WindowBuffer.Add | intelligence-layer/src/pipeline/flow_window.py:61-66 | appends, dropping the oldest when full; with no room at all it fails and keeps nothing |
| FlowWindow.WindowBuffer.Close | intelligence-layer/src/pipeline/flow_window.py:80-103 | hands the window over and opens the next where it ended |
| FlowWindow.RunIs | intelligence-layer/src/pipeline/flow_window.py:61-103 | over any run each window is exactly the last max_buffer flows since the one before, and windows tile time |
| FlowWindow.WindowsEndAtFires | intelligence-layer/src/pipeline/flow_window.py:80-103 | there is a window for every closing, and it ends at its time |
| FlowWindow.NothingLostIff | intelligence-layer/src/pipeline/flow_window.py:61-103 | windows and buffer hold exactly the pushes, in order, if and only if no window overflowed |
| FlowAggregator.FillBuckets | intelligence-layer/src/pipeline/flow_aggregator.py:30-34 | the first loop puts each counted flow into its pair's bucket |
| FlowAggregator.AggregateFlows | intelligence-layer/src/pipeline/flow_aggregator.py:24-75 | one record per pair, in order of first appearance |
| FlowAggregator.PairsHold | intelligence-layer/src/pipeline/flow_aggregator.py:30-34 | the pairs are distinct and are exactly those of the counted flows |
| FlowAggregator.BucketCounts | intelligence-layer/src/pipeline/flow_aggregator.py:30-34 | each bucket holds exactly the counted flows of its pair, as often as they came: the flows are partitioned |
| FlowAggregator.TotalsConserved | intelligence-layer/src/pipeline/flow_aggregator.py:36-73 | counts, bytes and packets over all records add up to the totals of the flows with both endpoints |
| FlowAggregator.AggregateAppend | intelligence-layer/src/pipeline/flow_aggregator.py:24-75 | aggregating a followed by b combines the records of a and b pair by pair: sums add, maxima take the maximum, sorted sets unite |
| FlowAggregator.OrderUnseen | intelligence-layer/src/pipeline/flow_aggregator.py:36-73 | reordering a bucket's flows changes nothing in its record but the order of flow ids |
| FlowAggregator.AggregateOrderUnseen | intelligence-layer/src/pipeline/flow_aggregator.py:24-75 | neither does the aggregation of a whole window: the same pairs, with the same records but for the order of flow ids |
| FlowReadings.RecordIs | intelligence-layer/src/pipeline/flow_aggregator.py:36-73 | a record counts the flows between its two addresses, and those of them in TCP and in UDP in any case, has the greatest of each of their four volumes, lists their ports, applications and states in order, and has the window's bounds and each address's own zone |
| FlowReadings.SingleFlow | intelligence-layer/src/pipeline/flow_aggregator.py:30-73 | the record of a single flow, field by field, and none without both addresses |
| FlowReadings.JoinIs | intelligence-layer/src/pipeline/flow_aggregator.py:57-64 | joining two volumes adds the sums and keeps the greater maximum |
| FlowReadings.RecordsInOrder | intelligence-layer/src/pipeline/flow_aggregator.py:30-36 | the records come in the order in which their pairs first came, one for each pair seen |
| FlowBatchDispatcher.PairKeyInjective | intelligence-layer/src/pipeline/flow_batch_dispatcher.py:238-242 | the key gives the pair away when no source holds the arrow |
| FlowBatchDispatcher.ArrowCollides | intelligence-layer/src/pipeline/flow_batch_dispatcher.py:238-242 | with the arrow in a source two pairs can share a key |
| FlowBatchDispatcher.WindowKeysDistinct | intelligence-layer/src/pipeline/flow_batch_dispatcher.py:238-242 | the records of one window have distinct keys when no source holds the arrow |
| FlowBatchDispatcher.Dispatcher.OnWindowClose | intelligence-layer/src/pipeline/flow_batch_dispatcher.py:126-235 | the pairs attempted are exactly the suspects of either detector, each once, and none when the trigger is off; the statistics count the flows, the records, the keys that either detector flags, the attempts and the alerts taken |
| FlowBatchDispatcher.AttemptsAreSuspects | intelligence-layer/src/pipeline/flow_batch_dispatcher.py:189-225 | looping over the union of both detectors' keys attempts a record exactly when it scores high or is labelled suspect, so unknown ids do nothing and no label removes a heuristic suspect |
| FlowReadings.AttemptedIff | intelligence-layer/src/pipeline/flow_batch_dispatcher.py:189-225 | a record is attempted exactly when its score reaches the threshold or the classifier gives its key a label that begins with SUSPECT, with that score or 0 and that label or none |
| FlowReadings.KeyIs | intelligence-layer/src/pipeline/flow_batch_dispatcher.py:238-242 | a key is source, arrow, destination, colon and a number that reads back as the first port, or as 0 without one |
| FlowReadings.SuspectIff | intelligence-layer/src/pipeline/flow_aggregator.py:78-114 | a score of two or more has exactly four reasons: several flows into a critical zone from another, an administration port from outside the management zone, more than five ports, or the database zone turned to another |
| FlowReadings.SignsAreWorth | intelligence-layer/src/pipeline/flow_aggregator.py:78-114 | what each sign adds to a score, whatever else the record holds |
| FlowReadings.SeverityIs | intelligence-layer/src/pipeline/flow_batch_dispatcher.py:245-276 | which scores and labels bring an alert to each severity |
| FlowReadings.AcceptedIs | intelligence-layer/src/pipeline/flow_batch_dispatcher.py:214-231 | the alerts dispatched are the attempts taken without an error, counted |
| FlowBatchDispatcher.SeverityAsDescribedIff | intelligence-layer/src/pipeline/flow_batch_dispatcher.py:245-276 | the severity is the described one except for low-scored scans, bursts and beacons, which come out one step milder |
| FlowBatchDispatcher.ScanComesOutMilder | intelligence-layer/src/pipeline/flow_batch_dispatcher.py:245-276 | a scan with a score of three is described as severity 2 and comes out as 3 |
| Policy.RuleIdIff | intelligence-layer/src/models/decision.py:15-19 | two flow tuples share a rule id exactly when they are equal up to letter case |
| Policy.IdGivesSource | intelligence-layer/src/models/decision.py:15-19 | an id alone determines its source |
| Policy.KeySeparates | intelligence-layer/src/agent/response_cache.py:45-73 | cache keys separate signature, zones and port whatever the alert carries |
| Policy.KeyIff | intelligence-layer/src/agent/response_cache.py:45-73 | when no correlation signal holds a bar, two alerts share a key exactly when all their features are the same, whatever their protocol texts |
| Policy.SignalPlain | intelligence-layer/src/storage/operational_memory.py:146-183 | no correlation signal the code builds holds a bar |
| Policy.SignalIs | intelligence-layer/src/storage/operational_memory.py:146-183 | the signal of a list of signatures, text by text: escalation exactly when reconnaissance and something worse are among several, lateral to critical exactly when both are and no reconnaissance, else the one stage named as often as a signature has it |
| DecisionAgent.Agent.Process | intelligence-layer/src/agent/graph.py:72-189 | one alert comes to the specified outcome, decision, cache and calls, early exits and exceptions included; `AgentOutcomes` tells these case by case |
| DecisionAgent.Agent.Decide | intelligence-layer/src/agent/graph.py:95-158 | the nodes up to the fork, in order, with their exits |
| AgentOutcomes.ClosedBenignIff | intelligence-layer/src/agent/nodes.py:76-91 | an alert is closed as benign before gathering exactly when the load succeeded and the classifier answered, stripped and in lower case, with the word benign |
| AgentOutcomes.OtherwiseGoesOn | intelligence-layer/src/agent/nodes.py:76-91 | a classifier that raises or says anything else changes nothing in what follows |
| AgentOutcomes.UsedIs | intelligence-layer/src/agent/graph.py:125-158 | the decision in force: the cached one turned on the live source under a new id, else the one proposed without explanations, else none; and exactly when it is the cached one |
| AgentOutcomes.OutcomeIs | intelligence-layer/src/agent/graph.py:95-252 | the outcome of every alert under every schedule, by which collaborator raised, refused or answered what |
| AgentOutcomes.ThoughtIs | intelligence-layer/src/agent/nodes.py:523-637 | a decision ends with the first readable explanation of two attempts, the second made only when the first raised; a hit keeps its own |
| DecisionAgent.Agent.Validate | intelligence-layer/src/agent/nodes.py:640-705 | which outcome, if any, closes the alert at validation and the confidence gate, each in both directions |
| DecisionAgent.Agent.Enforce | intelligence-layer/src/agent/graph.py:191-252 | the straight run of the enforcing task is its step machine run to the end |
| DecisionAgent.Agent.Report | intelligence-layer/src/agent/graph.py:227-252 | what follows the backend's answer, including the second report when a report raises |
| DecisionAgent.Agent.CollectReasoning | intelligence-layer/src/agent/nodes.py:523-637 | two attempts; only audit fields of the decision change |
| DecisionAgent.Interleaved | intelligence-layer/src/agent/graph.py:160-182 | under any schedule of the two tasks enforcement is where it would be had it run alone |
| DecisionAgent.ScheduleUnseen | intelligence-layer/src/agent/graph.py:160-182 | any two complete schedules give the same outcome, calls, cache and enforcement fields |
| DecisionAgent.ExplainedWhole | intelligence-layer/src/agent/nodes.py:627-637 | the decision ends with the same explanation under every schedule, and is handed over and stored with all of it or none |
| DecisionAgent.Alone | intelligence-layer/src/agent/graph.py:191-252 | enforcement ends within six awaits and asks the backend once when admitted, never otherwise |
| DecisionAgent.BackendAskedIff | intelligence-layer/src/agent/graph.py:95-252 | for all answers, exceptions and schedules the backend is asked at most once, exactly when every gate lets a DROP through; the outcome is enforced exactly when it then succeeds and recording raises nothing; the cache learns exactly then, on a miss |
| AgentOutcomes.SlotAskedIff | intelligence-layer/src/agent/graph.py:198-213 | the limiter is asked, once and for the decision's source, exactly when a DROP reaches enforcement with the breaker closed |
| DecisionAgent.BreakerHears | intelligence-layer/src/agent/graph.py:227-250 | the breaker is told of every push, its success or its failure, and of nothing else |
| DecisionAgent.UnrecordedSuccess | intelligence-layer/src/agent/graph.py:227-250 | a success whose recording raises leaves the rule pushed and the outcome error |
| AgentRuns.SequentialIsFair | intelligence-layer/src/agent/graph.py:178-182 | runs of the agent's own sequential method complete every fork, so the lemmas about complete runs speak of them |
| AgentRuns.EntryOrigin | intelligence-layer/src/agent/response_cache.py:94-107 | after any run every cache entry is a DROP decision that an earlier alert enforced on a miss under that key |
| AgentRuns.HitEnforces | intelligence-layer/src/agent/response_cache.py:141-161 | on a hit the decision has the live alert's source and a rule id of its own tuple, is otherwise the earlier enforced one, and the cache is unchanged |
| AgentRuns.HitSameShape | intelligence-layer/src/agent/nodes.py:177-218 | a hit stands for an earlier enforced alert of the same signature, zones and port, and with bar-free signals of the same features altogether |
| AgentRuns.SecondKeepsDestination | intelligence-layer/src/agent/response_cache.py:141-161 | of two alerts of one shape the second is pushed with its own source and the first decision's destination |
| AgentRuns.OldTargetBlocked | intelligence-layer/src/agent/response_cache.py:141-161 | two alerts from one zone to two addresses of another, of which the second is answered with a rule for the first address |
| AgentRuns.SameKeyIff | intelligence-layer/src/agent/response_cache.py:45-73 | two sources get one cache key, all else equal, exactly when zone and baseline have the same names |
| AgentOutcomes.KeysAgreeIff | intelligence-layer/src/agent/response_cache.py:45-73 | with bar-free signals two alerts share a key exactly when they agree in signature, zones of source and destination, port, protocol up to letter case, baseline and correlation |
| AgentRuns.BlastRadius | intelligence-layer/src/agent/graph.py:207-229 | over alerts taken one after another at most so many rules handed to the backend lie in any sixty seconds, in all, and for any address in any of its windows, as positions counted |
| AgentOutcomes.HandedGrows | intelligence-layer/src/agent/graph.py:215-229 | a rule is on record as handed over for exactly the alerts that reach the backend, under its own address and time |
| AgentRuns.StreakIsFailures | intelligence-layer/src/agent/graph.py:227-250 | over alerts taken one after another the breaker's streak counts the failed pushes in a row |
| AgentRuns.NoPushWhileOpen | intelligence-layer/src/agent/graph.py:198-205 | over alerts that do not overlap, once the threshold of failed pushes in a row is met, nothing is pushed until the halt after the last failure is over |
| SharedAgent.SharedBlastRadius | intelligence-layer/src/agent/graph.py:191-252 | however alerts overlap, the rules handed over stay within the limits in all, in any minute and for any address |
| SharedAgent.SharedEntryOrigin | intelligence-layer/src/agent/graph.py:227-243 | however alerts overlap, every cache entry is a DROP that an alert enforced on a miss under that key, and no alert has the backend asked twice |
| SharedAgent.SharedHitEnforces | intelligence-layer/src/agent/response_cache.py:141-161 | however alerts overlap, on a hit the decision has the alert's own source and a rule id of its own tuple, and is otherwise that of an alert enforced on a miss under the same key |
| SharedAgent.OnlyPastClosed | intelligence-layer/src/agent/graph.py:198-205 | no alert gets past the breaker while it is open |
| SharedAgent.OnlyInFlightFollow | intelligence-layer/src/agent/graph.py:198-229 | while the breaker stays open, no more rules are handed over than alerts were past it when it opened |
| SharedAgent.HandsOverIff | intelligence-layer/src/agent/graph.py:198-229 | exactly when a turn hands a rule over: its alert is past the breaker, the limiter allows it and the run is not dry; whether the breaker is open plays no part |
| SharedAgent.TurnRecords | intelligence-layer/src/agent/graph.py:198-252 | what every turn leaves on the records of breaker, limiter and backend: one report for each push when its answer is in, a slot where there is room, a rule with it unless the run is dry |
| SharedAgent.TurnCaches | intelligence-layer/src/agent/graph.py:227-243 | a key is learnt exactly when a push on a miss succeeded and is recorded, with caching on and working; otherwise only expiry changes the cache |
| SharedAgent.TurnTouches | intelligence-layer/src/agent/graph.py:72-189 | an alert that looks into the cache is closed or forks as the pipeline has it on the cache of that moment, and no turn touches another alert |
| SharedAgent.SomeTurnHandsOverIff | intelligence-layer/src/agent/graph.py:198-229 | some next turn hands a rule over exactly when some alert is past the breaker with room in the limits |
| SharedAgent.PushedWhileOpen | intelligence-layer/src/agent/graph.py:198-229 | whatever the threshold, with room for that many pushes for one address and one for another, overlapping alerts have a run in which a rule is handed over while the breaker is open |
| SharedAgent.DefaultsAreRoomy | intelligence-layer/src/config.py:58-67 | the default limits, threshold and halt leave that room |
| Safety.RateLimiter.CheckAndConsume | intelligence-layer/src/agent/safety/rate_limiter.py:30-70 | a slot is granted exactly when the whole history allows it in all three windows, and the evicting queues count that history |
| Safety.AllowedIff | intelligence-layer/src/agent/safety/rate_limiter.py:38-66 | a slot is allowed exactly when the grants at most sixty seconds old, all grants, and the grants to the address within its window are each fewer than their limit |
| Safety.BareIpIs | intelligence-layer/src/agent/safety/rate_limiter.py:43-43 | an address is what stands in front of the first slash |
| Safety.QueueCounts | intelligence-layer/src/agent/safety/rate_limiter.py:38-46 | an evicted queue is as long as the count over the whole history |
| Safety.LimitsHold | intelligence-layer/src/agent/safety/rate_limiter.py:30-70 | at most so many grants lie in any sixty seconds, in all, and in any window of an address, as positions counted in the whole history |
| Safety.CircuitBreaker.IsOpen | intelligence-layer/src/agent/safety/circuit_breaker.py:20-29 | open exactly when the reports so far make it so |
| Safety.OpenAtIff | intelligence-layer/src/agent/safety/circuit_breaker.py:20-40 | open exactly when at least the threshold of the last reports, and at least one, are failures and the halt after the last of them is not over |
| Safety.CircuitBreaker.RecordFailure | intelligence-layer/src/agent/safety/circuit_breaker.py:36-40 | one more failure on record, reopening at the threshold |
| Safety.ReopensAtOnce | intelligence-layer/src/agent/safety/circuit_breaker.py:31-40 | after the halt a single further failure opens the breaker again |
| RuleDistribution.LeafIff | secure-framework/nos_gnmi_pool.py:51-60 | a network goes to a leaf exactly when it lies in a zone of that leaf |
| RuleDistribution.SubnetIff | secure-framework/nos_gnmi_pool.py:57-59 | a network lies in a zone exactly when every address of it is an address of the zone |
| RuleDistribution.HostLeafIff | secure-framework/nos_gnmi_pool.py:29-60 | a host goes to the first leaf exactly for 10.1.100.* and 10.1.200.*, and to the second exactly for 10.2.100.* and 10.2.50.* |
| RuleReadings.LeafOfAddresses | secure-framework/nos_gnmi_pool.py:51-60 | a network goes to a leaf exactly when all its addresses lie in one zone of that leaf |
| RuleDistribution.OneZone | secure-framework/nos_gnmi_pool.py:29-39 | no network lies in two zones, so their order does not matter |
| RuleDistribution.SameTargetIff | secure-framework/sam/role_api.py:522-532 | REST and NETCONF choose the same leaf exactly when the source's home is connected or the session's client is where REST falls back to |
| RuleReadings.HostTargets | secure-framework/sam/role_api.py:522-532 | where a push for a host goes over NETCONF and over REST, by its octets and by which leaves are up |
| RuleReadings.UnreadTargets | secure-framework/sam/role_api.py:522-532 | where a push without a readable source goes |
| RuleDistribution.Distributor.ValidateAndPush | secure-framework/netconf_gnmi_adapter.py:239-312 | validation, the agent's gate and stamp, routing and fallback, in this order |
| RuleReadings.PushAnswers | secure-framework/netconf_gnmi_adapter.py:239-312 | each answer of a push in both directions: invalid, denied, failed and fine |
| RuleDistribution.Distributor.DeleteRule | secure-framework/netconf_gnmi_adapter.py:314-339 | tries the connected clients one by one, removes the id from those that answer and fails if any fails |
| RuleReadings.DeleteAnswers | secure-framework/netconf_gnmi_adapter.py:314-339 | a delete is tried on the connected leaves, or with none on the session's own client, and succeeds exactly when it is tried at all and nobody refuses |
| RuleDistribution.Distributor.PostRule | secure-framework/sam/role_api.py:486-556 | what a REST push writes and answers |
| RuleReadings.RestAnswers | secure-framework/sam/role_api.py:486-556 | each error status of a REST push in both directions |
| RuleDistribution.Distributor.DeleteByRest | secure-framework/sam/role_api.py:558-588 | what a REST delete removes and answers |
| RuleDistribution.Distributor.EditNative | secure-framework/netconf_gnmi_adapter.py:136-171 | stop on error: all elements in document order, or those before the failing one and at most the answered part of a failing delete |
| RuleDistribution.Distributor.EditOpenConfig | secure-framework/netconf_gnmi_adapter.py:175-235 | the same for an OpenConfig ACL set, its own delete operation included |
| RuleReadings.OrderIs | secure-framework/netconf_gnmi_adapter.py:136-171 | which elements delete, which are refused, which fail, and that every other is a rule to be put |
| RuleReadings.ItemsAre | secure-framework/netconf_gnmi_adapter.py:136-235 | a document asks for what its elements or entries ask for, one by one, a deleted set for its own deletion alone |
| RuleDistribution.StopsSomewhere | secure-framework/netconf_gnmi_adapter.py:136-171 | every document, of any length and with any failures, has an outcome that stops on error |
| RuleDistribution.StopsOnce | secure-framework/netconf_gnmi_adapter.py:136-171 | a document has one outcome: stop on error determines where it stops, the state and the answer |
| RuleReadings.DocumentIs | secure-framework/netconf_gnmi_adapter.py:136-235 | a document goes through item by item, each on what the one before it left, to its end or to the first that fails; what a failing item leaves, and that nothing behind it is tried |
| RuleDistribution.TranslatedAcceptable | secure-framework/netconf_gnmi_adapter.py:194-228 | every OpenConfig entry translates to a rule that passes validation |
| RuleRuns.ElementLands | secure-framework/netconf_gnmi_adapter.py:136-171 | an element that goes through stands whole on the leaf of its own source, and nothing else changes |
| RuleRuns.EntryLands | secure-framework/netconf_gnmi_adapter.py:194-235 | an OpenConfig entry that goes through stands whole, field by field as it translates, on the leaf of its source, and nothing else changes |
| RuleRuns.TranslatedIs | secure-framework/netconf_gnmi_adapter.py:194-228 | what an entry translates to: the last part of its action if known and DROP otherwise, the protocol by its known names, the sequence number as priority |
| RuleReadings.AfterColonIs | secure-framework/netconf_gnmi_adapter.py:217-222 | the last part of an action is what stands behind its last colon |
| RuleRuns.RestLands | secure-framework/sam/role_api.py:486-556 | a REST push succeeds exactly when id, action and target allow it; the rule then stands whole on its target, and nothing else changes |
| RuleRuns.AgentDeniedIff | secure-framework/netconf_gnmi_adapter.py:253-264 | an agent's acceptable rule is refused exactly when its action is not DROP, and then nothing is written |
| RuleRuns.DeletedIff | secure-framework/netconf_gnmi_adapter.py:314-339 | a NETCONF delete that reports success has removed the rule everywhere exactly when every leaf holding it was tried; no other rule is touched |
| RuleRuns.DeleteMissesDownLeaf | secure-framework/netconf_gnmi_adapter.py:314-339 | with the holding leaf disconnected a NETCONF delete reports success and the rule stands |
| RuleRuns.RestDeletedIff | secure-framework/sam/role_api.py:558-588 | a REST delete removes the rule everywhere exactly when every leaf holding it is connected and answers; it reports success exactly when no leaf is connected or one answers |
| RuleRuns.RestDeleteMisses | secure-framework/sam/role_api.py:558-588 | with no leaf connected, or one answering and the holding one refusing, a REST delete reports success and the rule stands |
| RuleRuns.SetDeleteKeepsEntries | secure-framework/netconf_gnmi_adapter.py:185-213 | deleting an OpenConfig set leaves every rule its entries wrote |
| RuleRuns.RuleIdDeterministic | intelligence-layer/src/enforcement/ids_agent_proxy.py:18-29 | rules sent by the agent carry ids determined by their source |
| RuleRuns.OneLeafPerId | secure-framework/nos_gnmi_pool.py:162-171 | placed leaves hold an id at most once |
| RuleRuns.PlacedIff | secure-framework/netconf_gnmi_adapter.py:266-279 | a successful push keeps the leaves placed exactly when it goes to the source's home |
| RuleRuns.IdsStayUnique | secure-framework/nos_gnmi_pool.py:162-180 | in every state reached by any mix of sessions and REST calls an id is on at most one leaf, the home of its source |
| RuleRuns.DownThenUpDuplicates | secure-framework/netconf_gnmi_adapter.py:266-279 | pushed while its home is down and again after, a rule stands on both leaves |
| RuleRuns.RepushOverwrites | secure-framework/netconf_gnmi_adapter.py:266-291 | pushing an id again replaces its rule in place |
| RuleRuns.DeleteErases | secure-framework/netconf_gnmi_adapter.py:314-339 | with all leaves answering a delete removes its id everywhere and nothing else |
| RuleRuns.DocumentAgent | secure-framework/netconf_gnmi_adapter.py:239-264 | however an agent's document ends, native or OpenConfig, it writes only DROP rules with source agent and a comment |
| RuleRuns.RoleIsOwn | secure-framework/sam/session_context.py:97-144 | the role a thread reads is its own connection's, whatever others do |
| RuleReadings.OwnRoleIs | secure-framework/sam/session_context.py:97-144 | a connection has the role its last opening gave it, unless it was closed since |
| RuleReadings.RoleIs | secure-framework/sam/session_context.py:57-89 | which units of a certificate, in any case, make an administrator, an operator, an agent or nobody |
| RuleRuns.AgentWritesDrops | secure-framework/netconf_gnmi_adapter.py:253-264 | in any mix of sessions and REST calls an agent's edit writes only DROP rules with source agent |
| Fanout.Bridge.Subscribe | ids-vm/ids-api.py:198-206 | a client is taken, with an empty queue and behind the others, exactly while fewer than eight are registered |
| Fanout.Bridge.Broadcast | ids-vm/ids-api.py:27-38 | the event goes to the end of the queue of every registered client that has fewer than 256 queued; exactly those stay registered |
| Fanout.SendIs | ids-vm/ids-api.py:27-38 | whom an event reaches and who stays registered, in the bridge and in the hub; order and everything else are kept |
| Fanout.Bridge.Take | ids-vm/ids-api.py:214-221 | the next queued event, also after the client lost its place: what is returned is taken out of the queue and added to what the client has read |
| Fanout.ReadIs | ids-vm/ids-api.py:214-221 | a read of a non-empty queue makes what was read one longer and the queue one shorter, in the bridge and in the hub, and touches no other client |
| Fanout.ReadsTakeFirst | ids-vm/ids-api.py:214-221 | n reads take the first n events queued |
| Fanout.ReadsInOrder | ids-vm/ids-api.py:198-225 | after any run a client has read as many events as its reads found, and they are the first so many sent since it registered, each once |
| Fanout.Bridge.Leave | ids-vm/ids-api.py:222-225 | the client loses its place, nobody else does, and no queue changes |
| Fanout.LeaveIs | ids-vm/ids-api.py:222-225 | who leaves is registered no more, everybody else is, in the same order, and what was read and queued stays |
| Fanout.BridgeAlwaysHolds | ids-vm/ids-api.py:198-225 | in every interleaving clients and queues keep their bounds, and what a client read and has queued is a gap-free run from its registration that reaches the newest event while it is registered |
| Fanout.DroppedIffFull | ids-vm/ids-api.py:27-38 | an event costs a client its place exactly when its queue is full |
| Fanout.SlowClientDropped | ids-vm/ids-api.py:27-38 | a client that reads nothing is dropped by the event after the one that filled its queue |
| Fanout.DroppedForGood | ids-vm/ids-api.py:27-38 | a dropped client gets no further event, and what it has is never disturbed |
| Fanout.Channels.Broadcast | ids-agent/main.go:74-86 | every registered client whose channel holds fewer than 64 gets the event at its end, in whatever order the map gives them, and nobody loses a place |
| Fanout.Channels.Receive | ids-agent/main.go:171-181 | the next event of a channel is taken out of it and added to what its client has got |
| Fanout.HubAlwaysHolds | ids-agent/main.go:74-91 | channels keep their bound, and a client gets an order-preserving subsequence of the events since it came |
| Fanout.NothingMissedIff | ids-agent/main.go:74-91 | a client missed nothing exactly when it got as many events as were sent since it came |
| EventTail.Tailer.PollFile | ids-vm/ids-api.py:40-78 | one poll reads line by line to the end of the file |
| EventTail.Tailer.Ingest | ids-vm/ids-api.py:64-75 | the rings hold the last 2000 alert and flow events of the lines read, and every alert is broadcast |
| EventTail.PiecesUnique | ids-vm/ids-api.py:60-64 | a text falls into lines in one way only |
| EventTail.CursorExactIff | ids-vm/ids-api.py:54-64 | a poll takes the cursor to the end of the file exactly when no return stands before a newline in what it read |
| EventTail.PollShrunk | ids-vm/ids-api.py:50-64 | a file shorter than the cursor is read from its start |
| EventTail.UniversalAppend | ids-vm/ids-api.py:54-64 | reading in text mode goes part by part wherever no return is cut from its newline |
| EventTail.UniversalIs | ids-vm/ids-api.py:54-64 | a return, a newline and a return with its newline each come out as one newline |
| EventTail.ReturnsReadTwice | ids-vm/ids-api.py:54-64 | three lines ending in return and newline, of which the next poll reads the last once more |
| EventTail.LinesReadIff | ids-vm/ids-api.py:40-78 | over files without returns the cursor is the length consumed, and the lines read are the consumed text's lines exactly when no poll began in the middle of one |
| EventTail.EventsExactlyOnce | ids-vm/ids-api.py:40-78 | with whole-line writes without returns every event of the consumed text is taken in exactly once, in file order |
| EventTail.HalfLineLost | ids-vm/ids-api.py:60-69 | a line polled half way is lost |
| TamperLog.TamperLogger.constructor | secure-framework/tamper_logger.py:43-61 | a start loads the entries among the last max_logs lines |
| TamperLog.TamperLogger.Record | secure-framework/tamper_logger.py:97-156 | an entry is signed, kept in the bounded memory and appended to the file |
| TamperLog.StepIs | secure-framework/tamper_logger.py:97-156 | what a logged entry, a failed write, a restart and a clearing leave in the file and in the memory |
| TamperLog.FileIs | secure-framework/tamper_logger.py:97-156 | after any run the file is what it began with and, in order, every entry that was logged and could be written, signed |
| TamperLog.AlwaysMirrors | secure-framework/tamper_logger.py:97-156 | over any number of entries and restarts the memory is the last max_logs entries of the file, and every entry verifies |
| TamperLog.RestartMirrorsIff | secure-framework/tamper_logger.py:305-321 | a restart restores the last entries exactly when the last lines hold no junk or no entry stands before them |
| TamperLog.RestartForgets | secure-framework/tamper_logger.py:305-321 | a file of an entry and a damaged line, of which a logger that keeps one line remembers nothing |
| TamperLog.NothingFails | secure-framework/tamper_logger.py:255-266 | no entry of the memory or the file fails verification after any such run |
| TamperLog.AlteredFails | secure-framework/tamper_logger.py:232-266 | an altered entry verifies only if nothing was altered |
| TamperLog.TamperLogger.GenerateAuditReport | secure-framework/tamper_logger.py:592-670 | the report holds every tally and count of the entries, over the file or over the memory |
| TamperLog.ReportIs | secure-framework/tamper_logger.py:611-670 | what each number of a report counts: tampering, denials, failed verifications, and of every user, action and severity its entries, a user being the name, else the address, else unknown |
| TamperLog.CriticalIs | secure-framework/tamper_logger.py:656-668 | the critical entries are picked one by one and in order |
| TamperLog.ReportSums | secure-framework/tamper_logger.py:611-670 | the tallies by user, action and severity each sum to the number of events |

## Left out

- XML and JSON reading and writing: the model starts from parsed requests, rule elements, rows and events, and assumes that a written record reads back as itself.
- Sockets, TLS, HTTP, gRPC, Redis and Neo4j drivers: each store is a map, a sorted set, a graph or a file; a failing call is a parameter and changes nothing.
- Multi-byte text: the framer counts characters when decoding and bytes when encoding, and the tailer counts characters; one byte per character is modelled.
- AgentRuns.NoPushWhileOpen: holds of alerts that do not overlap; `SharedAgent` says what is left of it when they do.
- EventTail.LinesReadIff: is stated for files without returns, because with them it is false (`EventTail.ReturnsReadTwice`).
- IPv6 prefixes and the reading of IPv4 texts: the reader is a parameter that takes only digits, dots and a slash.
- Prompts and the answers of language models: any decision, any exception. The validators of a decision are likewise any function of it.
- Tracing, logging and safety-check notes of the pipeline: only outcome, decision, cache and calls are modelled. An exception while the trace is opened or the decision is built is not.
- The awaits before the fork: of an alert's way there only the look into the cache touches what alerts share, and `SharedAgent` takes it as one step; the breaker's and the limiter's answers are taken at the moment the fork reads them.
- Badly typed explanations: a null in an audit field is stored with the decision and makes a later look into the cache come back empty, so a schedule can decide whether a later alert hits; here audit fields are well typed, and of such misses only a failing read of the cache is modelled.
- Printing in the NETCONF handler: it is taken not to raise; a print that raised behind a send would draw a second reply.
- Safety.RateLimiter.CheckAndConsume: `reset` is not modelled, and the clock never runs backwards, as a monotonic clock promises.
- The objects behind streaming clients: a client is named by a number and its queue is a value under that name, so aliasing of queues is not captured. A broadcast is one step; a read that falls inside one commutes with it.
- WebSocket clients and the heartbeat replay of the hub: they keep no queue.
- A JSON line that is no record: it ends a poll early, and the next poll goes on behind it; the model skips it within the poll.
- File rotation: a poll of a file that shrank is `EventTail.PollShrunk`, but the runs only grow the file.
- Reading alerts and flows back from the rings, and the filters of the audit log: they only select.
- Enforcement-plane and zone lists of the knowledge graph, and the merged timeline of both event sets: flat lists that come back as they went in.
- The graph outside kill chains and the policy matrix: nodes of other kinds are taken as given.
- Reconnecting, the on-disconnect handler and role policies of the connection pool: which clients are connected is a parameter of every operation.
- RuleDistribution.Distributor.PostRule: starts from the record after defaults and number reading; a number that cannot be read raises before anything is written.
- Time stamps, transaction ids and identity merging of the audit log: fields of the entry like any other.
- The user interface, the experiment harness and the visualisers.
