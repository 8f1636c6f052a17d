# Polyvisor, modelled and proved

A Dafny model of the parts of Polyvisor where the order of things matters: the markdown
editor and its collaborative text, the codecs for ids and dates, the message port between
a frame and its worker, the worker's event queues and key derivation, the URL bar, the
visor's sheets, saves and drawer, and the fake Drive's multipart reader. `dafny verify
dfyconfig.toml` checks all of it.

Each module takes the form of the code it models. Code that updates fields in place is a
class, whose methods are proved against functions on its state; loops are loops with
invariants; what several handlers do together is a state machine whose runs are sequences
of events, in any order the environment can produce them. The properties are lemmas about
all inputs or all runs.

| file | models |
|---|---|
| `ScalarDiff`, `TextDocument`, `MarkdownApp`, `RenderMarkdown` | apps/markdown/src/lib.rs |
| `BitStrings`, `BaseText`, `Z32`, `Base64Url`, `CivilDate` | runtime/component/src/z32.rs, visor/src/contacts_ui.rs |
| `Draft`, `Saving`, `Drawer`, `Visor`, `PairingCode` | visor/src/draft.rs, visor/src/ui.rs, visor/src/state.rs |
| `Rpc` | web/rpc.ts, web/frame.ts |
| `WorkerEvents`, `WorkerKdf` | web/worker.ts |
| `RouteBar` | web/boot.ts |
| `Multipart` | e2e/fake-drive.ts |
| `Wrappers`, `Words` | what the others share |

## What the environment is

- Automerge is a text of ordered elements with tombstones. Every replica places an element
  once, where all replicas agree, and may only hide it; a snapshot is a document and merging
  is union. Which elements an edit allots is an argument that only has to fit the edit.
- The kernel's answers are event arguments, so every answer and every failure is covered.
  Where a property is about what the kernel then holds, `Saving` gives it the four calls a
  save makes.
- Timers and promises are events that happen at any later point. A handler runs to
  its next `await` in one step.
- Grapheme segmentation is a function argument about which nothing is assumed.

## What the code does that its comments do not say

- `civil_date` is right from 1 March of year 0 on. Before that it combines an adjustment for
  truncating division with a division that already rounds down, and is a day late except on
  the last day of each 400-year era (`CivilDate.CivilDateIff`, `CivilDate.CivilDateCollides`).
- The comment at visor/src/ui.rs:226-228 says no path writes one app's labels into another's.
  `Visor.LabelSentToAnotherApp` is such a path: a label left unsaved when its app ends is sent
  to the next app. `Visor.LabelsGoHome` gives the guard under which it cannot happen.
- A refresh that is applied between a save's two gate bumps leaves a field nobody typed
  reading as unsaved (`Visor.RefreshInSaveLeavesAStaleField`), exactly when it brought neither
  what the save took nor what the kernel holds in the end (`Visor.RefreshInSaveExactlyWhen`).
- A save seeds the sheet with the kernel's glyphs as they are, and a later save then sends one
  the user never touched (`Visor.UntouchedGlyphSent`), exactly when it is not its own first
  grapheme (`Visor.UntouchedSentExactlyWhen`).
- Save or Revert pressed in the dialog while another save is out drops the transition the
  dialog was about (`Visor.ParkedIsAnswered`, `Visor.AnsweredWhileSaving`).
- A save can end well, without Revert, over typed text the kernel never accepted, and the text
  is then gone. Labels typed for an app that has ended, with none running, are never sent
  (`Visor.LabelDroppedUnsent`). And a field typed while a save is out, over what a refresh has
  just brought, back to what the save had found, is taken for untouched
  (`Visor.TypedBackIsOverlooked`). `Visor.LostExactlyWhen` gives the condition over every run,
  which is just these two; with no refresh applied inside a save it is labels alone
  (`Visor.OverlookedOnlyByRefresh`).
- "Saved locally" would be said too early if text could be typed before the first read; only
  the read-only textarea prevents it (`MarkdownApp.SavedTooEarly`).
- Two proxies on a frame's port would take each other's answers if both had calls out; the
  order of phases in `mount` prevents it (`Rpc.CrossTalk`).
- The bar can be left on an old route if a session's frame comes up while an encode of that
  session from before is under way, unless it is of the first ask and of the same route, or
  comes up while the session is up already, over a pending timer with another route; and in no
  other way (`RouteBar.UnfreshRun`, `RouteBar.TimerOvertakes`, `RouteBar.BarNamesLastRoute`).
  A session closed while its frame was opening takes the bar when it has opened
  (`RouteBar.LateOpeningTakesTheBar`).

## Model

| member | source | states |
|---|---|---|
| Z32.Encode | runtime/component/src/z32.rs:29-47 | The text spells the bytes: their bits, most significant first, five to a symbol, fewer than five zero bits after them, though the u32 accumulator is never masked |
| Z32.Decode | runtime/component/src/z32.rs:51-73 | Ok of exactly the byte string the text spells; otherwise the first foreign symbol, or that it is not whole bytes |
| Z32.EncodeAndDecode | runtime/component/src/z32.rs:29-73 | For every text and byte string, decoding the text gives the bytes if and only if encoding the bytes gives the text |
| Z32.AlphabetIsAlphabet | runtime/component/src/z32.rs:26 | The 32 symbols are distinct |
| Z32.AlphabetInOrder | runtime/component/src/z32.rs:26 | The symbol of every digit, from `y` for 0 to `9` for 31 |
| Z32.ForeignSymbols | runtime/component/src/z32.rs:26 | Small letters and figures but `l`, `v`, `0` and `2`, and nothing else |
| Z32.OneByte | runtime/component/src/z32.rs:29-47 | A byte alone is spelled by its top five bits and then its other three, high: 0xff is `9h` |
| Z32.NoSpelling | runtime/component/src/z32.rs:67-71 | Five or more bits left over, or any of them set, and no byte string is spelled: every refusal at the end is deserved |
| Z32.OneSpelling | runtime/component/src/z32.rs:67-72 | Otherwise the text spells the decoded bytes and no others |
| BitStrings.ReadDigit | runtime/component/src/z32.rs:34 | Shifting a digit into a u32 drops only bits already written |
| BitStrings.WriteDigit | runtime/component/src/z32.rs:38 | The symbol taken is the top of the bits still held, whatever lies above them |
| BitStrings.WritePadded | runtime/component/src/z32.rs:44 | The last symbol holds the leftover bits high, with zeros below |
| BaseText.SpellsOneText | runtime/component/src/z32.rs:49-73 | A byte string has one spelling |
| BaseText.SpellsOneByteString | runtime/component/src/z32.rs:49-73 | A text spells at most one byte string |
| Base64Url.Base64Url | visor/src/contacts_ui.rs:1700-1717 | The output spells the bytes as section 5 of RFC 4648 has it, unpadded: six bits to a symbol of the URL-safe alphabet, length the ceiling of 4n/3 |
| Base64Url.PrintChunk | visor/src/contacts_ui.rs:1703-1715 | One pass of the loop extends the spelling by its one, two or three bytes |
| Base64Url.TableInOrder | visor/src/contacts_ui.rs:1701-1702 | Table 2 of RFC 4648, value by value |
| Base64Url.Injective | visor/src/contacts_ui.rs:1700-1717 | A text spells one byte string, so different bytes never print alike |
| CivilDate.CivilDateIff | visor/src/contacts_ui.rs:1675-1688 | The result is a valid proleptic Gregorian date numbered as the given day exactly when the era is right |
| CivilDate.CivilDateInverse | visor/src/contacts_ui.rs:1675-1688 | On those days it is the two-sided inverse of counting days in the calendar |
| CivilDate.CivilDateNumber | visor/src/contacts_ui.rs:1675-1688 | On every other day it is numbered one day late |
| CivilDate.CivilDateConsecutive | visor/src/contacts_ui.rs:1675-1688 | Consecutive day numbers give consecutive dates |
| CivilDate.CivilDateCollides | visor/src/contacts_ui.rs:1677 | Days -719469 and -719470 both give 29 February of year 0 |
| CivilDate.DayNumberCounts | visor/src/contacts_ui.rs:1675-1688 | The reference numbering starts at 1 January 1970 and gives the next date the next number |
| CivilDate.DayNumberInjective | visor/src/contacts_ui.rs:1675-1688 | Valid dates with one number are one date |
| CivilDate.ClaimedWithinDay | visor/src/contacts_ui.rs:1666-1673 | A claimed time is labelled with a date exactly when its second lies within that day |
| ScalarDiff.DiffCorrect | apps/markdown/src/lib.rs:210-231 | The splice turns the old text into the new one; shared ends never overlap |
| ScalarDiff.DiffOnBoundaries | apps/markdown/src/lib.rs:224-230 | The bytes sliced out of the new text are whole characters, exactly the inserted ones |
| ScalarDiff.DiffMinimal | apps/markdown/src/lib.rs:210-231 | No other contiguous splice that does it deletes and inserts fewer scalars |
| ScalarDiff.SlicesMeans | apps/markdown/src/lib.rs:230 | A slice on boundaries of the UTF-8 bytes is the encoding of the scalars it names |
| ScalarDiff.Utf8CharReads | apps/markdown/src/lib.rs:224-230 | The bytes of a scalar read back as it, as section 3 of RFC 3629 has it, and no fewer would do |
| ScalarDiff.Utf16ToScalar | apps/markdown/src/lib.rs:233-249 | For a text below 2^32 units: Ok of the one scalar position at that offset; fails as splitting a pair exactly inside one, as beyond the text exactly past its end |
| ScalarDiff.OffsetsInverse | apps/markdown/src/lib.rs:251-260 | `scalar_to_utf16` answers an offset exactly for the position that begins there |
| ScalarDiff.OffsetsRoundTrip | apps/markdown/src/lib.rs:233-260 | The two conversions are mutually inverse |
| ScalarDiff.FoldIsUnits | apps/markdown/src/lib.rs:255-259 | The checked sum is the number of units, or an error from 2^32 on |
| ScalarDiff.UnitsAscend | apps/markdown/src/lib.rs:233-260 | Offsets strictly increase with positions |
| ScalarDiff.UnitsCount | apps/markdown/src/lib.rs:233-260 | Offsets count the units of the UTF-16 encoding, section 2.1 of RFC 2781 |
| ScalarDiff.SplitsMeans | apps/markdown/src/lib.rs:233-249 | An offset is refused as splitting a pair exactly where the unit there is the second of one |
| ScalarDiff.BeginsMeans | apps/markdown/src/lib.rs:233-249 | A position's offset has just the units of the scalars before it in front of it |
| ScalarDiff.ScalarFailsExactlyWhen | apps/markdown/src/lib.rs:251-260 | `scalar_to_utf16` fails exactly past the end, or where the offset does not fit a u32 |
| TextDocument.BoundaryPosition | apps/markdown/src/lib.rs:262-276 | A fresh cursor stands where it was asked to |
| TextDocument.AnchorResolves | apps/markdown/src/lib.rs:170-175 | An After anchor is its element while that survives, and then the next survivor |
| TextDocument.SelectionNeverInverts | apps/markdown/src/lib.rs:159-184 | A selection captured in order resolves in order, within the text, in every later document; a collapsed one stays collapsed |
| TextDocument.CapturedIsShown | apps/markdown/src/lib.rs:121-184 | A captured selection is shown again exactly as the browser reported it |
| TextDocument.ShownInOrder | apps/markdown/src/lib.rs:121-138 | After any remote inserts and deletes, `control_state` answers start at most end at most the length, both between scalars |
| TextDocument.SpliceTexts | apps/markdown/src/lib.rs:144-149 | Splicing the document splices its text |
| TextDocument.FitsSomewhere | apps/markdown/src/lib.rs:144-149 | While no two elements of any replica share a place, any text fits at any position of any replica, and no two share one afterwards: no edit is assumed away |
| TextDocument.SpliceWithin | apps/markdown/src/lib.rs:144-149 | A splice adds to what the replicas have placed just what was allotted to it |
| TextDocument.MergeWithin | apps/markdown/src/lib.rs:109 | A merge adds to it nothing |
| TextDocument.EditedText | apps/markdown/src/lib.rs:140-149 | After `input` the document's text is the browser's |
| TextDocument.EditsCarryTheEdit | apps/markdown/src/lib.rs:140-157 | The changes answered take the old document to the new one, and are none exactly when the text was already so |
| TextDocument.NoChange | apps/markdown/src/lib.rs:210-231 | A diff is empty exactly between equal texts |
| TextDocument.MarkdownDocument.MergeSnapshot | apps/markdown/src/lib.rs:100-119 | Unites the document with what loads, answers whether that held the body or what went wrong, and keeps the selection and its being in order |
| TextDocument.MarkdownDocument.ShownState | apps/markdown/src/lib.rs:121-138 | A selection that was captured in order, whatever was merged and typed since, is shown with start at most end at most the length, both between scalars of the text, and as one offset if it was one cursor |
| TextDocument.MarkdownDocument.CaptureSelection | apps/markdown/src/lib.rs:159-184 | Takes the selection exactly when both ends stand between scalars of this very text, else keeps the one it had; one reported in order is kept in order |
| TextDocument.MarkdownDocument.Input | apps/markdown/src/lib.rs:140-157 | Makes the text the browser's and, exactly if the selection could be placed, takes it and answers the changes; the text has changed even if it could not |
| MarkdownApp.NothingLost | apps/markdown/src/lib.rs:336-347 | At every step published, in-flight and queued changes are what was enqueued, in order, and `pending` counts the batches not yet published |
| MarkdownApp.SavedMeansSaved | apps/markdown/src/lib.rs:391-393 | "Saved locally" implies everything enqueued is published and the document is what was published and merged |
| MarkdownApp.SavedTooEarly | apps/markdown/src/lib.rs:407-409 | Without the read-only textarea it would not |
| MarkdownApp.FrozenWhileComposing | apps/markdown/src/lib.rs:433-439 | From the event that began a composition on, the document is as that event found it, and the last composition's echo is forgotten |
| MarkdownApp.ThawsExactlyWhen | apps/markdown/src/lib.rs:398-461 | Short of its end, the one event that can change it is a first read bringing something new |
| MarkdownApp.CompositionOverShownText | apps/markdown/src/lib.rs:521-540 | The composed text is diffed against the text the browser showed, and only then is the deferred snapshot merged |
| MarkdownApp.EchoAuthorsNothing | apps/markdown/src/lib.rs:552-557 | The input that repeats a composition's end authors nothing |
| MarkdownApp.OtherInputIsAuthored | apps/markdown/src/lib.rs:544-558 | Every other input outside a composition makes the document its text and enqueues what takes the old document there, or reports that its selection could not be placed; the echo does neither, and is forgotten |
| MarkdownApp.HistoryCovered | apps/markdown/src/lib.rs:428-461 | Document and deferred snapshot together hold the whole history up to `revision`, though only the newest snapshot is kept and the first read may lower it |
| MarkdownApp.ServedArrives | apps/markdown/src/lib.rs:428-451 | In every run, whatever the kernel serves a watching editor it has from then on: in the document, or deferred while a composition goes on |
| MarkdownApp.WatchAdvances | apps/markdown/src/lib.rs:431-451 | A newer snapshot moves the revision and is merged, or deferred while composing; any other changes nothing |
| MarkdownApp.ReadLands | apps/markdown/src/lib.rs:398-415 | The first read is merged, readies the editor, and sends the genesis exactly if there was no body |
| MarkdownApp.StatusTells | apps/markdown/src/lib.rs:326-330 | In every run the status says failed, loading, saved or saving exactly when something failed, the first read is out, nothing waits, or something does |
| MarkdownApp.FailsExactlyWhen | apps/markdown/src/lib.rs:374-565 | A step fails exactly if an answer is an error or unusable, or an edit lacks its text or a place for its selection; and a failure stays |
| MarkdownApp.WatchingStopsExactlyWhen | apps/markdown/src/lib.rs:428-461 | Watching stops exactly at a failed watch, or at unusable bytes outside a composition |
| MarkdownApp.BacklogPublished | apps/markdown/src/lib.rs:374-393 | From every state of every run, two publishes that succeed leave all that was enqueued published, and say so |
| MarkdownApp.RefusedStops | apps/markdown/src/lib.rs:384-388 | A publish that fails publishes nothing and stops the publisher |
| MarkdownApp.StoppedStays | apps/markdown/src/lib.rs:384-388 | And then nothing more is published in any further run |
| MarkdownApp.Editor.DrainBacklog | apps/markdown/src/lib.rs:336-347 | Flattens the first batch and all queued behind it, in order, and counts them |
| MarkdownApp.Editor.TakeBacklog | apps/markdown/src/lib.rs:374-383 | The publisher takes the whole backlog as one publish |
| MarkdownApp.Editor.HandlePublished | apps/markdown/src/lib.rs:384-393 | A publish counts down what it covered; a failed one stops the publisher |
| MarkdownApp.Editor.HandleRead | apps/markdown/src/lib.rs:398-426 | The first read merges, readies, and says saved or sends the genesis |
| MarkdownApp.Editor.HandleWatch | apps/markdown/src/lib.rs:428-451 | A newer snapshot is merged, or deferred while composing |
| MarkdownApp.Editor.HandleCompositionStart | apps/markdown/src/lib.rs:517-520 | Begins a composition and forgets the last one's echo |
| MarkdownApp.Editor.HandleCompositionEnd | apps/markdown/src/lib.rs:521-540 | Authors the composed text, then merges what was deferred |
| MarkdownApp.Editor.HandleInput | apps/markdown/src/lib.rs:541-565 | Authors an input unless composing or an echo |
| MarkdownApp.Editor.EnqueueResult | apps/markdown/src/lib.rs:467-479 | Sends changes if there are any, and reports a failed edit |
| MarkdownApp.Editor.ShowProgress | apps/markdown/src/lib.rs:326-330 | Progress never overwrites a failure |
| RenderMarkdown.Render | apps/markdown/src/lib.rs:597-641 | The stack is never empty on well-nested events, and they are exactly the ones whose rendered forest flattens back to them. Its text is what they say, and each of them is one leaf of its kind or opens one container of its kind, in order |
| RenderMarkdown.ShowsAll | apps/markdown/src/lib.rs:609-660 | So is every forest that spells out the events: code as code, breaks and rules as such, each tag its own container, ordered lists and others apart |
| RenderMarkdown.RenderForest | apps/markdown/src/lib.rs:597-641 | Rendering is recursive descent: events that spell out a forest render to it |
| RenderMarkdown.FlattenInjective | apps/markdown/src/lib.rs:574-581 | Events are the nesting of at most one forest |
| RenderMarkdown.FlattenDepth | apps/markdown/src/lib.rs:597-641 | A forest's own events are well nested |
| RenderMarkdown.NeverAgain | apps/markdown/src/lib.rs:602-608 | Once too much was closed, nothing after makes the stream well nested |
| Rpc.MessagesTellApart | web/rpc.ts:46-57 | No message is both request and response, each listener knows its own, and each carries its id, function and outcome |
| Rpc.ProxyInterfaces.Call | web/rpc.ts:159-170 | A call takes the next id and waits under it; arguments that do not clone leave nothing waiting |
| Rpc.ProxyInterfaces.OnMessage | web/rpc.ts:142-150 | A response settles the call waiting under its id, once, and no other |
| Rpc.EveryCallItsOwnAnswer | web/frame.ts:44-93 | In every run every call on the frame's port settles at most once, only with the server's answer to it, and is otherwise still out, though both proxies number from 1 |
| Rpc.RequestsAsCalled | web/rpc.ts:159-170 | In every run the producer's k-th call is asked under id k, for the function it named; before it runs only the list of assets is asked for, and then assets |
| Rpc.RunsExactlyWhen | web/frame.ts:57-93 | In every run the producer runs exactly once the list and as many assets as it told of were answered, and the frame is torn down exactly once one of these failed |
| Rpc.StepKeeps | web/frame.ts:57-77 | No asset call is out once the producer can call |
| Rpc.CrossTalkExactlyWhen | web/rpc.ts:142-150 | An answer to a call of either proxy settles that call alone exactly when the other has none out under its id |
| Rpc.CrossTalk | web/rpc.ts:136-150 | With calls out at both proxies, one would be given the other's answer |
| WorkerEvents.EveryInterleaving | web/worker.ts:398-411 | In every interleaving of pump and `next`: a parked waiter means an empty queue, the queue is the newest at most 64 events pumped, what the calls come to is in order without repeats, and whatever was not delivered has 64 newer events behind it |
| WorkerEvents.LosesExactlyWhen | web/worker.ts:90-94 | An event is lost exactly when the pump finds 64 waiting, and then one |
| WorkerEvents.KeepsUp | web/worker.ts:398-411 | A tab that never falls 64 behind gets from its calls all that is pumped, in order, but for what still waits |
| WorkerEvents.RunIsAsSeen | web/worker.ts:739-755 | In every interleaving, the events given or delivered to a parked call are the ones received, in that order; a call parks exactly when nothing waits and none is parked, and is refused exactly when one is |
| WorkerEvents.Tab.Next | web/worker.ts:739-755 | Gives the oldest queued event, parks once, refuses a second waiter and then changes nothing |
| WorkerEvents.Tab.Deliver | web/worker.ts:401-408 | A parked waiter gets the event; else the queue does, and its oldest goes past 64 |
| WorkerEvents.FanOut | web/worker.ts:398-411 | Every connected tab gets every event, in order |
| WorkerKdf.EveryRun | web/worker.ts:104-156 | In every run each request is settled exactly once or waits for a tab that said hello and has not left, its timer armed; at most one operation owns the derivation |
| WorkerKdf.SettlesExactlyWhen | web/worker.ts:112-156 | A waiting request settles exactly when its own tab answers or leaves, or its time runs out, and with just that |
| WorkerKdf.SettledForGood | web/worker.ts:104-156 | A settlement is never changed, through any further run |
| WorkerKdf.StrangersChangeNothing | web/worker.ts:607-623 | Nothing another tab sends settles or moves a request, or takes the derivation over |
| WorkerKdf.OnlyTheOwnerIsAsked | web/worker.ts:104-126 | Only the tab whose operation is running is asked, under a new id |
| WorkerKdf.AsksExactlyWhen | web/worker.ts:104-126 | A request is made exactly when the kernel derives while the owner is still here |
| WorkerKdf.OwnerChangesExactlyWhen | web/worker.ts:128-142 | The derivation is taken exactly when a tab that said hello begins and nobody has it, and freed exactly when its owner's operation ends |
| WorkerKdf.ServedExactlyWhile | web/worker.ts:553-607 | In every run a tab is served exactly while a hello of it with the first-named device stands: nothing since has made it leave |
| WorkerKdf.RunListed | web/worker.ts:540-607 | In every run a tab is listed exactly if it connected, or said such a hello, and has not left since |
| WorkerKdf.Worker.SayHello | web/worker.ts:553-590 | The first hello names the device, a matching one connects, another is turned away as departed |
| WorkerKdf.Worker.Abandon | web/worker.ts:148-155 | Settles, cancels and forgets exactly the requests waiting for that tab |
| WorkerKdf.Worker.Leave | web/worker.ts:145-156 | A tab that departs is no longer served, and its requests are settled |
| WorkerKdf.Worker.Acquire | web/worker.ts:128-135 | Refused unless the tab said hello and nobody owns the derivation |
| WorkerKdf.Worker.Release | web/worker.ts:138-142 | Frees the derivation if it is still this tab's |
| WorkerKdf.Worker.Ask | web/worker.ts:104-126 | A request under the next id, waiting and timed, or a refusal |
| WorkerKdf.Worker.HearAnswer | web/worker.ts:611-623 | An answer counts only from the tab that was asked |
| WorkerKdf.Worker.Expire | web/worker.ts:113-117 | A timeout settles and cancels its request |
| RouteBar.BarNamesLastRoute | web/boot.ts:669-716 | With encodes completing in any order, and every frame coming up with no encode of its session under way but the same: once the bar's owner has no timer or encode out and its newest did not fail, it is up and the bar holds the last route the events have it open at or set, of those not too long |
| RouteBar.RunIsAsTold | web/boot.ts:606-790 | In every run the frames up, and the last route of each, are what the events alone say |
| RouteBar.BurstAsksOnce | web/boot.ts:662-716 | Routes set while the timer runs cost one encode, of the last that is not too long, and that is what the bar comes to show |
| RouteBar.LandsOnce | web/boot.ts:680-688 | An encode answered or failed is out of the way; a failure writes nothing, and counts for the newest ask of an open session alone |
| RouteBar.OpenSessionHasTheBar | web/boot.ts:669-716 | With one frame at a time, the open session is then the owner |
| RouteBar.BarChangesExactlyWhen | web/boot.ts:619-628 | In every run only the newest encode of an open session writes the bar, and only its owner's closing clears it |
| RouteBar.ClosedStaysSilent | web/boot.ts:780-790 | In every run, from its close until a frame of it finishes opening, a session does not own the bar and nothing of its doing writes or clears it |
| RouteBar.RunKeeps | web/boot.ts:606-716 | In every such run each open session's last route is in its timer, or is the route of its newest ask, which is under way, failed or written |
| RouteBar.UnfreshShowsAnOldRoute | web/boot.ts:676-689 | The guard is exact: in any state a guarded run reaches, a frame that comes up without it can be followed by answers in an order that leaves the bar settled on an old route |
| RouteBar.UnfreshRun | web/boot.ts:676-689 | So every guarded run that meets such a frame has a continuation after which the bar is settled on a route the session did not set last |
| RouteBar.LateOpeningTakesTheBar | web/boot.ts:767-777 | In any state, a frame that finishes opening can take the bar, its session closed or not |
| RouteBar.UrlBar.EncodeFragment | web/boot.ts:677-689 | Numbers the session's asks and sends the newest |
| RouteBar.UrlBar.HearFragment | web/boot.ts:680-683 | Writes only the newest ask of an open session |
| RouteBar.UrlBar.HandleFrameRoute | web/boot.ts:691-716 | Restarts the session's timer with the route, if the frame is up and the route at most 238 bytes |
| RouteBar.UrlBar.Fire | web/boot.ts:711-714 | A timer asks for its route's encoding and is gone |
| RouteBar.UrlBar.FinishOpening | web/boot.ts:767-777 | An opened frame asks for the route it opened at |
| RouteBar.UrlBar.CloseFrame | web/boot.ts:780-790 | Forgets the session's timer and asks, and clears the bar exactly if it owns it |
| Multipart.IndexOf | e2e/fake-drive.ts:145-153 | The first place of the needle at or after `from`, or -1 |
| Multipart.IndexIsFirst | e2e/fake-drive.ts:145-153 | That is a place where the needle is, with none before it |
| Multipart.SplitMultipart | e2e/fake-drive.ts:122-143 | Terminates on every input with the contents between successive delimiters up to the closing one |
| Multipart.SplitUndoesPrint | e2e/fake-drive.ts:119-143 | Splitting undoes printing as section 5.1.1 of RFC 2046 has it, exactly when no body holds the delimiter: bodies may be empty or end in CR, LF or dashes, and any preamble line and epilogue may stand around |
| Multipart.PartsHoldNoMarker | e2e/fake-drive.ts:122-143 | No part of any input holds the delimiter |
| Multipart.ReadsOn | e2e/fake-drive.ts:122-143 | Of any input, what stands between a delimiter and the next is a part, unless two dashes after the first end it all |
| Multipart.ClosesMeans | e2e/fake-drive.ts:128 | Those are two dashes, both of them |
| Multipart.CutShort | e2e/fake-drive.ts:122-143 | Of an upload with no closing delimiter the parts before its last one are read, and what follows is not |
| Multipart.ContentIs | e2e/fake-drive.ts:132-138 | Of any input, a part is what lies past its first blank line, or all of it without one, less one line break at the end |
| Multipart.ContentOf | e2e/fake-drive.ts:132-138 | What lies past the first blank line and before the delimiter's own line break |
| Draft.SetField | visor/src/ui.rs:85-91 | An emptied field has no key; other keys keep their values |
| Draft.RebaseMap | visor/src/draft.rs:31-49 | Every key the user changed has the user's answer, every other the latest |
| Draft.TwoRefreshes | visor/src/draft.rs:31-49 | Two refreshes in a row are the later one alone exactly when no edit was met by the first and left by the second |
| Draft.MetaPatch | visor/src/ui.rs:153-162 | Each changed key once, with its new answer |
| Draft.PatchIsRebase | visor/src/ui.rs:153-162 | Patching the latest map with the user's changes is rebasing the draft over it |
| Draft.RebaseDraft | visor/src/ui.rs:110-121 | Rebases name, hue and both maps |
| Draft.RebasedField | visor/src/ui.rs:110-121 | Field by field, what the user changed is kept and the rest follows the latest |
| Saving.SaveIsRebase | visor/src/ui.rs:197-240 | Whatever the kernel holds, a save's calls do there what a refresh does to the draft, and no other app's labels change |
| Saving.PatchCarries | visor/src/ui.rs:153-162 | The order of a patch does not matter |
| Drawer.Reduce | visor/src/state.rs:200-211 | Closed only by closing with something running; showing always shows |
| Drawer.BootShows | visor/src/state.rs:63-76 | The boot shows a sealed device's ceremony, the device index to a fresh unnamed device beside kept ones, else the app list |
| Drawer.GateStopsReads | visor/src/state.rs:81-109 | A read may apply after some writes exactly when their number is a multiple of 2^64 |
| PairingCode.SpacedInFours | visor/src/state.rs:147-156 | A code is shown in groups of four |
| PairingCode.Grouped | visor/src/state.rs:147-156 | The loop builds that text |
| PairingCode.ClaimCode | visor/src/state.rs:171-174 | What is typed without its white space, or nothing |
| PairingCode.SqueezeAppends | visor/src/state.rs:172 | White space is dropped and the rest kept, piece by piece |
| PairingCode.SpacesAre | visor/src/state.rs:172 | White space is Unicode's 25 characters |
| PairingCode.ShownAndClaimed | visor/src/state.rs:147-174 | Reading a shown code back gives the code exactly when it had no white space of its own |
| Visor.DirtyIsTyped | visor/src/ui.rs:175-265 | In every run with no refresh applied inside a save, a field that reads as unsaved reads as the events have it last typed; or is a glyph not typed in since a Save, showing the first grapheme of what it showed when Save was pressed, which the user had typed unless it read as saved |
| Visor.TypedIsLast | visor/src/ui.rs:85-91 | In every run what is remembered as typed in a field, and under which app, is what the events say |
| Visor.MadeIsTrue | visor/src/ui.rs:186-189 | In every run what is remembered of a glyph that Save made is what the field showed when it was pressed, and if it is remembered as untouched it read as saved then or at a press before |
| Visor.TypingShows | visor/src/ui.rs:85-91 | Typing shows in its field what was typed, an emptied label as none, and leaves every other field |
| Visor.UntouchedSentExactlyWhen | visor/src/ui.rs:186-189 | In every state, a Save takes a field that reads as saved for a change exactly when it is a glyph that is not its own first grapheme |
| Visor.UntouchedIsMade | visor/src/ui.rs:186-189 | Such a glyph is told from those the user left |
| Visor.UnsavedKeepsUntil | visor/src/ui.rs:1150-1198 | In every run whatever, an unsaved field keeps its value until it is typed over, reverted, or saved and accepted as it stands, or the kernel holds the same; but Save may make a glyph of it, drops a label unsent where no app runs, and overlooks what was typed while it was out if that is what it had found there |
| Visor.LostExactlyWhen | visor/src/ui.rs:229-267 | In every run whatever, a commit takes away an unsaved field's value, never accepted by the kernel, exactly when it shows what the save left there, the kernel now holds something else, and the save had found it so or had taken a label with no app to send it to |
| Visor.TakenExactlyWhen | visor/src/ui.rs:197-267 | At every commit a field reads as saved exactly if it shows what the save left there, or what the kernel has; and was accepted exactly if the save took a change of it, but a label's only if an app ran; otherwise such a change is gone from the sheet |
| Visor.TypedBackIsOverlooked | visor/src/ui.rs:241-262 | A run in which what the user typed while a save was out, over what a refresh brought, is taken for untouched: it reads as unsaved until the save ends well, and then the sheet is clean without it |
| Visor.OverlookedIsTyped | visor/src/ui.rs:241-262 | In every run whatever, such a value of an unsaved field is what the events have last typed there |
| Visor.OverlookedOnlyByRefresh | visor/src/ui.rs:241-262 | With no refresh applied inside a save, no unsaved field is so taken |
| Visor.LabelDroppedUnsent | visor/src/ui.rs:229-267 | A run in which it is: the save makes no call, ends well and leaves the sheet clean, and nothing was reverted |
| Visor.AcceptedExactlyWhen | visor/src/ui.rs:197-240 | When all of a save's calls are accepted, so is each field it took a change of and no other, but labels where there was no app to send them to |
| Visor.TypedDuringSaveSurvives | visor/src/ui.rs:241-262 | A field that differs from what the save left there when it ends outlives it; every other follows the kernel, even one typed meanwhile back to what the save left, which is kept exactly if the kernel holds it; and a waiting transition seeds the sheet anew only over text the kernel holds too |
| Visor.RefreshFollows | visor/src/ui.rs:1150-1198 | A refresh gives saved fields the kernel's value and leaves unsaved ones; overtaken it only begins again, and failed it is only over |
| Visor.RefreshNotAcross | visor/src/ui.rs:1150-1168 | A refresh under way when a save begins or ends, or the drawer moves, is not applied when it lands |
| Visor.RefreshAppliesExactlyWhen | visor/src/ui.rs:1150-1168 | Over any run between, a refresh is applied when it lands exactly if nothing overtook it and the session is the one it began under, and else begins again |
| Visor.GatesMoveExactlyWhen | visor/src/ui.rs:930-976 | What overtakes a refresh is exactly what moves a gate: a save that begins or ends well, a write, a transition |
| Visor.SavedMeansSent | visor/src/ui.rs:197-240 | A save that ends well has had every change it took accepted, except labels where no app ran |
| Visor.SentExactlyWhen | visor/src/ui.rs:197-237 | A stage's call counts as sent exactly if the kernel took it, and fails the save exactly if it did not |
| Visor.SaveTakes | visor/src/ui.rs:186-189 | A save takes the sheet field by field, its glyphs cut to a grapheme, for the running app, with what the dialog was about waiting on it |
| Visor.FailedSaveKeepsSheet | visor/src/ui.rs:197-267 | A save that fails leaves the sheet as it stands, unsaved |
| Visor.FailedStays | visor/src/ui.rs:197-267 | And no step mends it |
| Visor.SeedingDiscardsNothing | visor/src/ui.rs:910-926 | In every run seeding a sheet never meets an unsaved edit; and once anything moved the drawer it is never closed with nothing running |
| Visor.OpenedSheetShows | visor/src/ui.rs:910-976 | Whatever step opens Settings or the app's sheet, the sheet is clean and shows, field by field, what is known |
| Visor.SheetMovesOnlyBy | visor/src/ui.rs:910-1198 | Otherwise the sheet changes only by typing, a save beginning or ending well, a revert or an applied refresh |
| Visor.KnownBecomes | visor/src/ui.rs:197-262 | What each step makes known of each field |
| Visor.StatusKnownFrom | visor/src/ui.rs:197-212 | The strip can show a name or hue just saved from the first news of the status on |
| Visor.DrawerGoes | visor/src/ui.rs:930-1060 | The drawer goes where the transition leads that takes place, and which does in each state, and else stays |
| Visor.RequestGoes | visor/src/ui.rs:984-1000 | A request over unsaved edits is parked, under the dialog or a save not heard, and else carried out; the bar's Revert leaves a clean sheet |
| Visor.ParkedStands | visor/src/ui.rs:984-1000 | The parked transition is never replaced while the dialog stands |
| Visor.ParkedIsAnswered | visor/src/ui.rs:2026-2055 | Save and Revert carry it out or hand it on; while another save is out they only dismiss |
| Visor.AnsweredWhileSaving | visor/src/ui.rs:1018-1022 | A run in which the dialog stands while a save is out |
| Visor.AfterSaveOnlyWhen | visor/src/ui.rs:1036-1042 | What waits on a save happens exactly if it ended well and nothing typed since differs from what the kernel holds |
| Visor.BootYields | visor/src/ui.rs:1097-1116 | In every run the boot's choice is shown exactly if no transition has taken place, and else dropped |
| Visor.LabelsGoHome | visor/src/ui.rs:229-236 | If no app comes or goes under an unsaved label, every label a save takes was left while the app it is sent to ran, or is the glyph Save makes of what was left then, but for a glyph nobody touched |
| Visor.LabelSentToAnotherApp | visor/src/ui.rs:226-236 | Otherwise a label typed for one app is sent to another |
| Visor.RefreshInSaveLeavesAStaleField | visor/src/ui.rs:1150-1198 | A refresh applied inside a save leaves an untouched field reading as unsaved |
| Visor.RefreshInSaveExactlyWhen | visor/src/ui.rs:1150-1198 | A refresh lands inside a save, anything happens that neither types in the field nor refreshes again, and the save commits: a field that had read as saved reads as unsaved exactly when the refresh brought neither what the save took of it nor what the kernel held in the end |
| Visor.StaleExactlyWhen | visor/src/ui.rs:241-262 | The same of the refresh and the commit alone |
| Visor.SessionChangeExactlyWhen | visor/src/ui.rs:226-236 | A change of app leaves every unsaved label its own app's exactly when no label is unsaved |
| Visor.LabelMissentExactlyWhen | visor/src/ui.rs:226-240 | The Save pressed after another app opens sends it a label's change left under its predecessor exactly if that label was unsaved |
| Visor.UntouchedGlyphSent | visor/src/ui.rs:186-189 | A run in which the save after a save sends a glyph nobody touched, exactly when the kernel's was not a single grapheme |
| Visor.Chrome.TypeIn | visor/src/ui.rs:3114-3164 | Puts what is typed in its field |
| Visor.Chrome.BeginRefresh | visor/src/ui.rs:1150-1155 | Notes the gates and the session a refresh begins under, one at a time |
| Visor.Chrome.Reseed | visor/src/ui.rs:910-926 | Opens a sheet on what the kernel last said |
| Visor.Chrome.Transition | visor/src/ui.rs:930-976 | Counts the transition, moves the drawer, seeds on the way to Settings or the app's sheet |
| Visor.Chrome.Ask | visor/src/ui.rs:984-1000 | Ignored under the dialog or a save, parked over unsaved edits, else taken |
| Visor.Chrome.AnswerDialog | visor/src/ui.rs:2036-2052 | Dismisses the dialog and saves, reverts or stays |
| Visor.Chrome.StartSave | visor/src/ui.rs:1018-1035 | Takes the seed and the draft with its glyphs normalised, and bumps the gate |
| Visor.Chrome.HearCall | visor/src/ui.rs:197-237 | One call's answer: counted as sent, shown on the strip, or failed |
| Visor.Chrome.FinishSave | visor/src/ui.rs:238-265 | Seeds from the kernel, rebases the draft, and takes the waiting transition if the sheet is clean |
| Visor.Chrome.Revert | visor/src/ui.rs:1050-1060 | Drops the edits, unless a save is out |
| Visor.Chrome.LandRefresh | visor/src/ui.rs:1150-1198 | Applies a refresh that nothing overtook, or begins it again |
| Visor.Chrome.EndSession | visor/src/ui.rs:1284-1292 | Forgets the session and its labels and rests the drawer |
| Visor.Chrome.LandBoot | visor/src/ui.rs:1097-1116 | Shows the boot's choice if nothing moved the drawer |

## Left out

- Automerge, keyhive, iroh, the kernel and the engine themselves are not part of this model; "What the environment is" says what stands for them.
- Browser interfaces, IndexedDB, OPFS, the service worker, the views, focus moves and styles: no property of their own here.
- The failed-device erase in web/worker.ts, `serveInterfaces`, value conversion over the port and the `frame-port` requests: the server's answer to a call is any outcome.
- `onselect` and `onselectionchange` of the markdown editor are modelled as `CaptureSelection` alone, not as events of the run: they touch the selection and can mark a failure, never the text.
- i64 overflow in `civil_date` and the padding of `claimed_label`'s printed fields.
- `save_now` begins its asynchronous work in the same step; the model has no gap between pressing Save and the draft being taken.
- A save's unchanged fields pass as steps of their own, so more interleavings are covered than the code has.
- A save's three closing reads, and a refresh's four, answer together in one event; the values are arbitrary.
- The status, app list and label reads of the visor are one event that changes what is known to anything at all.
- Key order: loops over a map's keys take them in any order, where the code's maps are sorted.
- `Multipart.SplitUndoesPrint` asks that header lines are not empty, hold no line break and no delimiter, that the boundary has no CR or LF, and that a preamble ends its line: the printed form of RFC 2046. Extracting the boundary from the request is not modelled.
- `RouteBar`: the check at the start of `openFrame` changes nothing by itself; a frame that comes up while one of its session is up is covered, as two openings at once can end so.
- `parse_key`, `coarse_age`, `roll_animal`, contact merging, emoji search and the test server's HTTP half: one branch each, or not part of the hard core.
