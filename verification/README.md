# Verification of the Angzarr Python client

A Dafny model of the client's core, with proofs. `dafny verify dfyconfig.toml` checks all of it.

The project follows the client's own components:

- **Dispatch** (`Errors.dfy`, `Context.dfy`, `Dispatch.dfy`, `Answers.dfy`): a contextual command is answered
  by folding a starting state and the delivered pages, running business code on the live state, folding the
  decision's own events as they will be persisted, and reporting a stale command's conflict; and what it is
  answered, told by the registered handlers alone. Appliers, handlers and the conflict resolver are arbitrary
  deterministic functions that may raise; a handler may also change the live state and context it is handed.
  The state message is a mutable object, folded into in place.
- **Runs of deliveries** (`Runs.dfy`, `Reports.dfy`, `Failures.dfy`, `Snapshots.dfy`): a coordinator keeps a log
  and the states answers carried, and delivers any of them with the pages after it. The fast form (saved state,
  split fold, decide-time fold) is proved to refine the simple one (fold the whole log from a fresh state)
  over every run, for business code that leaves the live state and its identity alone, which is proved to
  be exactly what is needed. Snapshots are proved transparent, the COMMUTATIVE report sound, and the failures of
  a request told exactly.
- **Diagnostics** (`Text.dfy`, `Quoting.dfy`, `Interpreter.dfy`, `Fluent.dfy`, `Catalog.dfy`, `Messages.dfy`):
  the display text and a parser that reads it back; the mini-Fluent interpreter as the loops that render,
  and its correctness against a syntax tree; the catalog parser and its round trip; and the three together,
  from a catalog's text to what is shown.
- **Compensation** (`Compensation.dfy`): the steps, rollback and late replies, exactly-once undo over every
  interleaving, and a rollback that restores the world.
- **The child handshake** (`Utf8.dfy`, `Handshake.dfy`, `Child.dfy`): UTF-8 (sections 3 and 4 of RFC 3629),
  the handshake line as text and as bytes and exactly when the two agree, and what a child does with its
  descriptors, signals and host on every exit.
- **Hosting** (`Host.dfy`, `Describe.dfy`): registration, delivery, start, supervisor ticks and stop as
  methods of a host, their effect over every interleaving, and the descriptor of a component.

Where the code and its documentation differ, the code is followed, and the exact condition under which it does
what is documented is proved. The catalog parser's documentation says blank lines end a message; one that starts
with a space continues it (`Catalog.SpacesContinue`). `display` is said to parse back; it does exactly where the
code holds no space and no name an equals sign (`Quoting.DisplayReadsBack`). `stop` is documented to turn every
status NOT_SERVING; a host started again after a stop is not stopped by another
(`Host.StopStopsUnlessRestarted`). A COMMUTATIVE fact without a resolver is a panic, where a command is refused
(`Failures.CommutativeNeedsResolver`). A host serves a component under the service of the method that added it,
which need not be that of its table's kind (`Host.ServedKindIsHosted`). A failing fold is said to name its page;
an error made under the router's own unhandled key can name another (`Context.PagesAreNamed`). A refused line's
text is said to lose no byte; it loses which of two byte strings it was, for exactly the pairs
`Handshake.EscapedSharedExactly` describes.

## Model

| member | source | states |
|---|---|---|
| Errors.TypeNameIgnoresPrefix | angzarr_client/router/errors.py:223-225 | A type URL names its slash-free last part whatever its prefix, and a bare name names itself. |
| Errors.UnflattenInvertsFlatten | angzarr_client/router/errors.py:94-97 | A wrapped cause's key and exact argument map are read back from the extras it travels in, beside any arguments not named like the cause. |
| Errors.FlattenIs | angzarr_client/router/errors.py:94-97 | A wrapped cause holds its key under its name and each argument under the name, a dot and its own, and nothing else. |
| Context.Apply | angzarr_client/router/context.py:178-185 | An applier runs with its own page as the current page, and the context variable is put back whether it returns or raises. |
| Context.Fold | angzarr_client/router/context.py:225-244 | The in-place loop leaves the replayed state, or answers the coded failure of the page the replay fails at; the context variable is as before on every exit. |
| Context.FoldPassesExactly | angzarr_client/router/context.py:230-237 | A fold ends in a state if and only if each page's applier in turn, handed the page under its own context, leaves the next of a chain of states from the first to that one, pages of no applier leaving it alone. |
| Context.FoldFailsExactly | angzarr_client/router/context.py:230-244 | A fold fails at a page with a state and a cause if and only if the pages before it fold to that state and its type's applier, handed it under its own context, raises that cause, of whatever kind, on it. |
| Context.FoldSkipsUnclaimedPages | angzarr_client/router/context.py:230-233 | Pages no applier claims are irrelevant: the fold of all pages and the fold of the claimed ones end in the same state, or fail on the same page and cause. |
| Context.ReplayConcat | angzarr_client/router/context.py:225-237 | Folding two runs of pages one after the other is folding their concatenation, failures and their positions included. |
| Errors.RaisedIsItsCause | angzarr_client/router/errors.py:151-213 | Whatever business code classifies (a rejection, a typed refusal, an immediate error, a bug or a retryable one) amounts to the key and arguments it was raised with; a rejection or an immediate error does if and only if its key is not the router's own unhandled key. |
| Errors.RaisedIsAnswered | angzarr_client/router/errors.py:151-213 | What each classified error is answered as, key, status, arguments and refusal object; one given a status its kind may not carry is a panic. |
| Context.FoldErrorReadsBack | angzarr_client/router/context.py:238-244 | Whatever an applier raises, the fold failure's extras give back exactly what the error amounts to (a coded error's key and arguments, the cause wrapped in an unhandled one, a panic, or no cause), and name the failing page if and only if the error brings no other sequence, type or state type along. |
| Context.PagesAreNamed | angzarr_client/router/context.py:238-244 | The errors whose fold failures name their page, whatever the page, are exactly those that bring no sequence, type or state type along under the router's own unhandled key. |
| Context.PageMisnamed | angzarr_client/router/errors.py:270-277 | One such error: a fold failure that tells another page's sequence for its own. |
| Context.FoldErrorIs | angzarr_client/router/context.py:238-244 | The failure a bug causes, spelled out: the page's sequence, type and state type, the bug's key and each of its arguments, and nothing else. |
| Context.AppliersAreHandedTheirPages | angzarr_client/router/context.py:230-237 | An applier is handed exactly the pages of its type, in order, each with its book's cover and its own sequence and meta, which are also the current page while it runs. |
| Dispatch.RegistrationReroutes | angzarr_client/router/aggregate.py:109-125 | A registration sends the payloads of its name to its handler and leaves the routing of every other command, fact and refusal as it was; a refusal's handler gets only refusals of its command that no fact handler takes. |
| Dispatch.LastCommandDecides | angzarr_client/router/aggregate.py:194-198 | After any registrations in any order a command goes to the handler last registered for its name (one that answers no book decides nothing), and is decided as before them where none was. |
| Dispatch.LastIngests | angzarr_client/router/aggregate.py:200-214 | After them a fact goes to the handler last registered for its name, a refusal no fact handler takes to the one last registered for the command refused, and any other is answered as before them. |
| Dispatch.Recorded | angzarr_client/router/context.py:150-155 | What a fact or a refusal handler records is answered as pages in order: the fact, then each flag. |
| Dispatch.SplitRebuild | angzarr_client/router/aggregate.py:160-165 | The fold in two runs, split anywhere, rebuilds what one fold does and fails at the same page with the same code. |
| Dispatch.Call | angzarr_client/router/context.py:247-253 | Business code runs on the live state and context under its page; what escapes is answered coded, and the context variable is put back. |
| Dispatch.CallChanged | angzarr_client/router/aggregate.py:187-189 | The resolver runs under the empty page; a missing resolver is answered as a panic. |
| Dispatch.AggregateDispatch.OnCommand | angzarr_client/router/aggregate.py:109-112 | Commands of the name go to the handler from now on; every other command and every fact is routed as before, and the rest of the table is kept. |
| Dispatch.AggregateDispatch.OnFact | angzarr_client/router/aggregate.py:114-118 | Facts of the name go to the handler from now on, refusals included where it is theirs; every other fact and every command is routed as before. |
| Dispatch.AggregateDispatch.OnRefused | angzarr_client/router/aggregate.py:120-125 | Refusals of the command that no fact handler takes go to the handler from now on; every other payload is routed as before. |
| Dispatch.AggregateDispatch.CountSeen | angzarr_client/router/aggregate.py:162 | Counts the delivered pages below the expected sequence. |
| Dispatch.AggregateDispatch.Stamp | angzarr_client/router/aggregate.py:173-178 | Each emitted copy keeps its payload and gets the next sequences in order and the decision's metadata. |
| Dispatch.AggregateDispatch.Handle | angzarr_client/router/aggregate.py:138-192 | The split fold into one mutable state, with its copies, decide-time stamping and report, answers what plain replay answers, error for error. |
| Answers.ContextIs | angzarr_client/router/aggregate.py:152-167 | The context a handler is handed, field by field, the expected sequence defaulting to the next one and the window starting after as many pages as lie below it. |
| Answers.RebuiltExactly | angzarr_client/router/context.py:210-222 | A book is rebuilt from the state it carries where that decodes, or from a fresh one where it carries none; one that does not decode is answered as corrupt with its type. |
| Answers.CommandsAreAnswered | angzarr_client/router/aggregate.py:143-198 | In every mode a command is answered from what the handler registered for its name did on the rebuilt state: what it raised, coded as escapes are, or its book, with the state after its events and the report; one of no registered name, or without the resolver its mode needs, is refused, spelled out. |
| Answers.FactsAreAnswered | angzarr_client/router/aggregate.py:143-214 | In every mode a fact is answered so from what its handler recorded, the fact and then its flags; one of no registered name is refused. |
| Answers.RefusalsAreAnswered | angzarr_client/router/aggregate.py:205-214 | A refusal no fact handler takes is answered so from the handler of the command refused; one that does not decode, or of a command with no handler, is refused. |
| Answers.UnrebuiltIsTold | angzarr_client/router/aggregate.py:158-165 | A handled input whose state cannot be rebuilt is answered with why, whatever its handler would do. |
| Runs.DeliveryRebuildsLog | angzarr_client/router/context.py:210-244 | From whichever saved state a delivery starts, its first n pages rebuild the replay of the whole log that far; none of it is answered corrupt or failed. |
| Runs.AnswerCarriesReplay | angzarr_client/router/aggregate.py:169-184 | The state an answer carries is the replay, from a fresh state, of the log with the answer's pages kept at the coordinator's sequences and metadata; the answer reports the table's version. |
| Runs.RunIsSound | angzarr_client/router/aggregate.py:158-184 | Over every run of deliveries the log stays in sequence and replayable, and every saved state is the replay of the pages it stands for. |
| Runs.RunRefinesReplay | angzarr_client/router/aggregate.py:158-184 | After any run, the next handler is given the replay of the whole log and its answer carries the replay of the log with its own pages. |
| Runs.DecideTimeFoldExact | angzarr_client/router/aggregate.py:169-179 | The decide-time fold agrees with replay for all appliers if and only if business code left the live state as given and, where it emitted pages, the identity its metadata is stamped from. |
| Reports.SplitIsByExpected | angzarr_client/router/aggregate.py:161-167 | Splitting at the count of seen pages separates seen from unseen if and only if no seen page follows an unseen one. |
| Reports.SnapshotGivesSameContext | angzarr_client/router/aggregate.py:152-167 | A handler is handed the same context over a snapshot as over the whole log if and only if an AGGREGATE_HANDLES window does not start inside the snapshot. |
| Reports.BeforeIsLogAtExpected | angzarr_client/router/aggregate.py:162-164 | COMMUTATIVE's before-state is the log's state at the expected sequence, or at the snapshot or the end where that lies outside what is delivered. |
| Reports.SnapshotIsTransparent | angzarr_client/router/aggregate.py:153-192 | Delivering a saved state and the pages after it is answered exactly as the whole log is, failures included, unless a conflict-reporting mode's expected sequence falls inside the snapshot. |
| Snapshots.SnapshotTransparentExactly | angzarr_client/router/aggregate.py:160-191 | Under COMMUTATIVE a snapshot changes no answer, whatever the resolver, if and only if the input fails before its report or the snapshot's state, where it is past the expected sequence, is the state there. |
| Reports.DisjointUnitsCommute | angzarr_client/router/aggregate.py:187-191 | Window and command units cover every changed unit; overlaying window then command gives the answer's state, and the other order does if and only if they are disjoint. |
| Reports.CommutativeReportIsSound | angzarr_client/router/aggregate.py:162-191 | What a COMMUTATIVE answer reports, over any sound store, is that report: coverage, overlay in order, and overlay in either order exactly when disjoint. |
| Failures.CommutativeNeedsResolver | angzarr_client/router/aggregate.py:143-151 | An input is refused as CONFLICT_RESOLUTION_UNSUPPORTED if and only if it is COMMUTATIVE, the table has no resolver, and it is no fact but a command the table handles; a fact that is decided and folded there is answered as a panic, and nothing there is answered otherwise than by an error. |
| Failures.ResolverDecidesFacts | angzarr_client/router/aggregate.py:143-191 | The facts that panic for the missing resolver are exactly those the table would answer with a resolver that never raises; every other fails alike with and without. |
| Failures.FactPanics | angzarr_client/router/aggregate.py:143-191 | One concrete fact: a panic under COMMUTATIVE, answered under every other mode. |
| Failures.FailedFoldIsTold | angzarr_client/router/aggregate.py:163-165 | Whatever a delivered page's applier raises fails the whole request under FOLD_FAILED, carrying what the error amounts to, and naming the page's sequence and type if and only if the error brings no others along. |
| Failures.FailedOwnFoldIsTold | angzarr_client/router/aggregate.py:169-179 | Whatever the applier of an event business code decided raises fails the whole request under FOLD_FAILED_EMITTED, at the sequence the event would have had. |
| Reports.SettledNonceIsReported | angzarr_client/router/context.py:51-74 | Under AGGREGATE_HANDLES a handler is given the log's pages past what its command had seen and the nonce delivered; the nonce it settles them with is the one reported, and none for a handler that leaves them. |
| Quoting.TwoPassesEscapeOnce | angzarr_client/diagnostic.py:49-55 | Replacing backslashes and then quotes escapes each character exactly once. |
| Quoting.ShownAsItIs | angzarr_client/diagnostic.py:49-55 | A value is shown as it is if and only if it is not empty and holds no whitespace, equals sign, quote or backslash; any other is shown escaped in quotes. |
| Quoting.EscapesEachChar | angzarr_client/diagnostic.py:49-55 | Escaping puts a backslash before each quote and each backslash and changes nothing else. |
| Quoting.DisplayIs | angzarr_client/diagnostic.py:58-63 | A display text is the code, then for each argument in order a space, its name, an equals sign and its value as shown. |
| Quoting.QuotedReadsBack | angzarr_client/diagnostic.py:49-55 | The first unescaped quote of a quoted value is its closing one, and what it closes is the value. |
| Quoting.DisplayReadsBack | angzarr_client/diagnostic.py:58-63 | A display text parses back to its code and exact argument list, whatever the values, if and only if the code holds no space and no name holds an equals sign. |
| Quoting.SharedExactly | angzarr_client/diagnostic.py:58-63 | A display text belongs to its code and arguments alone, among all codes and argument lists, if and only if there are no arguments and the code does not itself end in a space, a name, an equals sign and a quotation. |
| Quoting.UnquotedPartsCollide | angzarr_client/diagnostic.py:58-63 | Two concrete texts: one shared by two codes, one by two argument lists. |
| Quoting.DisplayHolds | angzarr_client/diagnostic.py:49-63 | The arguments' text holds a line feed, or any other character but a space, an equals sign, a quote and a backslash, if and only if a name or a value does: line breaks are not escaped. |
| Interpreter.CloseIsLeast | angzarr_client/diagnostic.py:94-101 | The closing brace is the least index at which the brace depth returns to zero, and there is none if and only if it never does. |
| Interpreter.Close | angzarr_client/diagnostic.py:94-101 | The scanning loop finds that index, or that there is none. |
| Interpreter.MarksCutVariants | angzarr_client/diagnostic.py:112-117 | The marks the regular expression finds cut a select's body into its variants, each running to the next mark, stripped. |
| Interpreter.MarkExactly | angzarr_client/diagnostic.py:46 | A variant's mark is found if and only if a key of one key character or more stands in brackets, after a star or not. |
| Interpreter.Select | angzarr_client/diagnostic.py:108-122 | The loop over the marks renders the first variant whose key matches a given value, else the last starred, else nothing. |
| Interpreter.RenderPlaceable | angzarr_client/diagnostic.py:125-136 | A placeable renders as its select, its argument's value, its missing name, or itself. |
| Interpreter.RenderPattern | angzarr_client/diagnostic.py:139-150 | The rendering loop terminates on every pattern, across its mutual recursion, with the pattern's rendering or the rest from the brace never closed. |
| Fluent.PatternDistributes | angzarr_client/diagnostic.py:139-150 | After a prefix whose placeables are closed the rest renders on its own, so inserted values are never read again. |
| Fluent.BracesRender | angzarr_client/diagnostic.py:94-101 | Balanced text in braces closes where it ends and renders as that placeable. |
| Fluent.BranchesRead | angzarr_client/diagnostic.py:112-119 | Printed branches read back as their stars, keys and texts, in order. |
| Fluent.SelectRenders | angzarr_client/diagnostic.py:108-122 | A printed select renders to the first matching branch's meaning, else the last starred branch's, else nothing. |
| Fluent.PrintedTreeRenders | angzarr_client/diagnostic.py:94-150 | The interpreter is correct: a printed tree of literals, references and selects renders to the tree's meaning, for all arguments. |
| Fluent.OtherPlaceables | angzarr_client/diagnostic.py:125-136 | A placeable that is no select is a reference if and only if its text, stripped, starts with `$`, given, missing or None, and is else left as written. |
| Fluent.UnclosedFails | angzarr_client/diagnostic.py:94-101 | A brace never closed fails the rendering with the rest of the pattern from it. |
| Catalog.Parse | angzarr_client/diagnostic.py:66-79 | The line loop over a text builds the messages its lines define. |
| Catalog.LinesSplit | angzarr_client/diagnostic.py:71 | Lines that hold no line boundary, each ended by a line feed, split back into themselves. |
| Catalog.AnyEndingSplits | angzarr_client/diagnostic.py:71 | So do lines ended by any line boundary, a carriage return and a line feed counting as one, and a last one not ended. |
| Catalog.StartExactly | angzarr_client/diagnostic.py:45 | A line starts a message if and only if it is an id followed by ` =` alone, or by ` = ` and the pattern. |
| Catalog.LineIsRead | angzarr_client/diagnostic.py:71-78 | What each kind of line does to what was read: starts a message, adds to the one above, or ends it; an indented line with none above does nothing. |
| Catalog.CatalogRoundTrip | angzarr_client/diagnostic.py:66-79 | Any entries, with multi-line patterns and comments and empty lines before and between them, parse back to the messages they write. |
| Catalog.WrittenIsTheMap | angzarr_client/diagnostic.py:66-79 | Where no id is written twice those messages are exactly each entry's pattern under its id. |
| Catalog.SpacesContinue | angzarr_client/diagnostic.py:72-78 | A blank line ends the message above it if and only if it is empty or starts with other whitespace than a space; any other continues the message as an empty line of its pattern. |
| Messages.CatalogRenders | angzarr_client/diagnostic.py:66-150 | End to end: any messages written into a catalog, parsed out of it and rendered give what their trees mean, for all arguments, each under its own id. |
| Compensation.Compensation.Register | angzarr_client/compensation.py:112-134 | Appends the step, and warns of it exactly when its undo targets a command. |
| Compensation.Compensation.Rollback | angzarr_client/compensation.py:142-151 | First the event that marks the process failed, then, newest first, what takes back each step recorded done. |
| Compensation.Compensation.Reply | angzarr_client/compensation.py:153-163 | The reply, and once rolled back the undo of the first step its type completes. |
| Compensation.Compensation.UndoRefused | angzarr_client/compensation.py:165-173 | The compensation failure of the first step whose undo becomes the target, or none. |
| Compensation.StateTellsActions | angzarr_client/compensation.py:142-163 | After any interleaving the state records exactly the replies made, and is rolled back exactly when a rollback was made. |
| Compensation.UndoneByEachRollback | angzarr_client/compensation.py:142-163 | In every interleaving of replies, late replies and any number of rollbacks, the undos issued are none before the first rollback, then one per completed step, built from its own reply, and once more, for each later rollback, all that was due when it was made. |
| Compensation.UndoneExactlyOnce | angzarr_client/compensation.py:142-163 | With one rollback the undos issued are none before it and then one per completed step, no more and no fewer. |
| Compensation.StepOf | angzarr_client/compensation.py:157-163 | A reply completes the first step of its type, and none where no step has it. |
| Compensation.RollbackRestores | angzarr_client/compensation.py:142-151 | Where each undo reverses its step, a rollback restores the world the completed steps, performed in registration order, changed. |
| Compensation.RollbackRestoresAnyOrder | angzarr_client/compensation.py:142-151 | Where what the steps do commutes, it does so whatever order they were performed in. |
| Utf8.EncodeDecodes | angzarr_client/child.py:131 | Every text's UTF-8 decodes to the text. |
| Utf8.DecodeEncodes | angzarr_client/child.py:131 | Bytes that decode are exactly what their text encodes to. |
| Utf8.EncodesAsSpecified | angzarr_client/child.py:131 | A character's bytes are as many as its range takes, the first telling how many follow, and weigh together to its number. |
| Utf8.AsciiOnlyAsItself | angzarr_client/child.py:128 | An ASCII byte appears in a text's UTF-8 if and only if its character is in the text. |
| Handshake.EscapeReverses | angzarr_client/child.py:93-103 | Reading each escape back gives the escaped bytes. |
| Handshake.EscapesEachByte | angzarr_client/child.py:101-103 | Each byte by itself: printable ASCII but the backslash stays, any other is written with its two hexadecimal digits. |
| Handshake.EscapedTellsApart | angzarr_client/child.py:93-103 | Byte strings that are not UTF-8 have different refused texts. |
| Handshake.EscapedSharedExactly | angzarr_client/child.py:93-103 | Two byte strings have the same refused text if and only if they are the same or one is the UTF-8 of the other's escapes. |
| Handshake.EscapedHasOneTwin | angzarr_client/child.py:93-103 | A byte string that is not UTF-8 shares its text with exactly one other, which is UTF-8. |
| Handshake.SpelledTextsAreShared | angzarr_client/child.py:93-103 | A byte string that is UTF-8 shares its text with another if and only if it spells the escapes of bytes that are not UTF-8. |
| Handshake.EscapedMeetsText | angzarr_client/child.py:93-103 | One such pair. |
| Handshake.TextVerdictExactly | angzarr_client/child.py:126-148 | Every line of text: an address if and only if, its ending removed, it is `angzarr-handshake v1 ` and the address, an absolute Unix socket path without a line feed; no handshake if and only if its first word is another; else malformed with its stripped text. |
| Handshake.BytesVerdictExactly | angzarr_client/child.py:126-148 | Every line of bytes likewise, malformed and escaped where it is not UTF-8, and else by its text. |
| Handshake.StripIs | angzarr_client/child.py:127-134 | What stripping leaves of text and of bytes: the line less a line feed it ends in, and then less a carriage return. |
| Handshake.LineIs | angzarr_client/child.py:87-90 | The line announcing an address, spelled out. |
| Handshake.HandshakeRoundTrip | angzarr_client/child.py:87-148 | A handshake line parses to the address of its path if and only if the path is absolute, holds no line feed and does not end in a carriage return. |
| Handshake.HandshakeBytesRoundTrip | angzarr_client/child.py:126-148 | Read as bytes, under exactly the same condition. |
| Handshake.PartitionsAgree | angzarr_client/child.py:128 | The bytes before the first space byte encode the text before the first space. |
| Handshake.BytesStripTwice | angzarr_client/child.py:126-134 | Bytes of a handshake's line are judged with the ending removed twice. |
| Handshake.TextAndBytesAgree | angzarr_client/child.py:126-148 | A line and its UTF-8 bytes get the same verdict if and only if it is no handshake's or, stripped once, ends in neither a carriage return nor a line feed. |
| Handshake.DoubledReturnDisagrees | angzarr_client/child.py:126-134 | For every good path, a line ending in two carriage returns and a line feed names two different addresses. |
| Child.Process.RunChild | angzarr_client/child.py:171-225 | What a run does, step by step, and how it ends, for every path, start, poll, stop and write. |
| Child.BeginsAndEnds | angzarr_client/child.py:183-225 | A run that begins keeps and redirects stdout, handles both signals and watches its stdin before its host starts, and last closes the descriptor, puts both handlers back and stops its host, in that order. |
| Child.PollsAre | angzarr_client/child.py:207-212 | It polls up to the first check that is SERVING or after which a stop is seen, and no further. |
| Child.EndingIsTold | angzarr_client/child.py:171-217 | How a run ends is told by what it did: refused with its line escaped if it did nothing, failed to start, failed to write if it saw SERVING and wrote nothing, and else returned. |
| Child.EveryRunCleansUp | angzarr_client/child.py:220-225 | However a run that began ends, the handshake descriptor is closed once, each signal handler restored once, and the host stopped once, last. |
| Child.OneHandshakeOnceServing | angzarr_client/child.py:207-217 | A handshake is written if and only if the host started, was seen SERVING before a stop was, and the write succeeds; it is the only one, right after that sight and right before the descriptor is closed. |
| Child.ParentReadsAddress | angzarr_client/child.py:207-217 | The line such a run writes reads back, as bytes, as the socket's address. |
| Host.RecordingHealth.Set | angzarr_client/host.py:234-236 | Appends a status to one name's history, begun if it had none, and changes no other. |
| Host.Router.Register | angzarr_client/router/router.py:50-61 | Holds the first table; a second is refused and changes nothing. |
| Host.Router.Hosted | angzarr_client/router/router.py:68-74 | The hosted table if and only if there is one of an asked kind, else which of the two failed. |
| Host.Router.Deliver | angzarr_client/router/router.py:76-79 | An aggregate's or a process manager's table answers a command at the version it has then; a policy's or a projector's, and an empty router, refuse it, each with its own error. |
| Host.DeliveredByKind | angzarr_client/router/router.py:68-79 | After any run that is the registered table's own answer at the described version, or the error its kind, or a host with nothing hosted, gives. |
| Host.HostedExactly | angzarr_client/host.py:441-458 | A component is hosted if and only if one was registered and no first stop after that closed an owned router. |
| Host.ComponentHost.Claim | angzarr_client/host.py:351-360 | The first name is claimed; every later one is remembered as refused. |
| Host.ComponentHost.AddComponent | angzarr_client/host.py:315-349 | The new state and the refusal of a registration by the method of a kind: nothing changes when it is refused, a surplus one is only remembered, the first is hosted at the reported version and served under the method's service; only the projectors' method asks for domains. |
| Host.AddRefusedExactly | angzarr_client/host.py:331-345 | Each reason a registration is refused for, if and only if it applies and none before it does. |
| Host.ComponentHost.AddUpcaster | angzarr_client/host.py:369-376 | The host serves the upcaster too. |
| Host.ComponentHost.AddService | angzarr_client/host.py:378-388 | A named application service is served too; an unnamed one is refused. |
| Host.ComponentHost.StartServing | angzarr_client/host.py:403-439 | The refusals in their order; otherwise NOT_SERVING is published under every name and, where it binds, the host runs. |
| Host.StartRefusedExactly | angzarr_client/host.py:408-424 | After any run a start is refused for a component beside an upcaster, for neither, for a surplus component or for running already, each if and only if that is so and none before it is. |
| Host.RunsExactly | angzarr_client/host.py:423-458 | A host runs if and only if some start was not refused and bound, and no first stop came after it. |
| Host.ComponentHost.SupervisorTick | angzarr_client/readiness.py:135-165 | One round publishes SERVING if every probe held and NOT_SERVING otherwise, to as many of its names as it gets to. |
| Host.ComponentHost.StopServing | angzarr_client/host.py:441-458 | A first stop publishes NOT_SERVING under every name now served and closes an owned router; any later one does nothing. |
| Host.RunStaysRegistered | angzarr_client/host.py:315-367 | Over every run the hosted table is of the described version and the claimed name, and a kind is served exactly when a component is claimed and described. |
| Host.HostedIsRegistered | angzarr_client/host.py:315-367 | Over every run what is hosted is the table of the one event that registered it, at its descriptor's version, beside that descriptor, and served under the service of the method that added it. |
| Host.RegistersOnce | angzarr_client/host.py:345-360 | At most one event of a run registers a component. |
| Host.ServedKindIsHosted | angzarr_client/host.py:293-313 | The service a component is served under is its table's own if and only if it was added by the method of its kind, or of the other kind that takes commands. |
| Host.KindsMayDiffer | angzarr_client/router/router.py:50-66 | The two can differ: an aggregate's table added as a policy's is accepted, hosted and served as a policy, while only commands reach it. |
| Host.DispatchReports | angzarr_client/router/aggregate.py:181-183 | Every answer of a dispatch reports the version its table was given. |
| Host.AnswersReportDescribedVersion | angzarr_client/host.py:333-349 | One version end to end: after any run of registrations, starts, ticks and stops, whatever is delivered and answered reports the version of the descriptor the host describes. |
| Host.OneComponentForGood | angzarr_client/host.py:345-360 | Over every run a component once registered is the one described and hosted from then on, until an owned router is closed. |
| Host.StartMeansNoSurplus | angzarr_client/host.py:415-422 | A host that may start has accepted one registration only: any accepted one is the first, and is what it describes. |
| Host.RunStaysSound | angzarr_client/host.py:548-594 | Over every interleaving each name's first status is NOT_SERVING, the supervisor publishes under published names the host still serves, and what does not run is last published NOT_SERVING under every name. |
| Host.NamesServed | angzarr_client/host.py:389-401 | Health is published under the server's own name, the component's two services, the upcaster's and the application's, and no other. |
| Host.ShownExactly | angzarr_client/host.py:548-594 | What each event adds to what is shown under each name: a start begins it anew with NOT_SERVING, a tick adds one status for all its probes, a first stop NOT_SERVING, and nothing else changes it. |
| Host.GoodTicksServe | angzarr_client/readiness.py:135-165 | An event publishes SERVING under a name if and only if it is a tick of a running host in which every probe held and which gets to the name. |
| Host.ServingNeedsGoodTick | angzarr_client/readiness.py:135-165 | Over every run each SERVING entry shown was itself published by such a tick, made since the start whose history is shown; no tick before a restart accounts for one. |
| Host.StopStopsUnlessRestarted | angzarr_client/host.py:441-458 | A stop leaves the host running if and only if it was stopped before and started again, and is then a no-op; otherwise every name, the supervisor's among them, ends NOT_SERVING. |
| Host.StopStops | angzarr_client/host.py:441-458 | In a run with no start after a stop, every stop stops. |
| Host.StoppedStaysQuiet | angzarr_client/host.py:579-588 | Once the host does not run, and is not started again, nothing more is published. |
| Host.RestartEscapesStop | angzarr_client/host.py:423-446 | A run that starts, stops, starts, turns SERVING and stops is left running and SERVING. |
| Describe.DescribeComponent | angzarr_client/descriptor.py:142-181 | A described component breaks none of the coordinator's rules, with its fields as given; otherwise the error is the first rule broken, read off the input, and never the two no described component can break. |
| Describe.FirstIsBroken | angzarr_client/descriptor.py:142-181 | A component is described if and only if it breaks none of the rules, each read off what is given by itself, and is refused for the first in their order that it breaks. |
| Describe.AcceptedExactly | angzarr_client/descriptor.py:184-228 | The coordinator accepts a descriptor if and only if it has a version, starting types only on a process manager, a state exactly on the stateful kinds, and one input and an output domain exactly on a policy. |
| Describe.CanonicalIsAscending | angzarr_client/descriptor.py:171-173 | The resolution list is strictly ascending and holds exactly what was listed. |
| Describe.CanonicalForgetsOrder | angzarr_client/descriptor.py:171-173 | Two lists give the same resolutions if and only if they list the same ones, whatever the order and repetition. |

## Left out

- Handle: a state an applier changed before raising is not described, because it is dropped with the request.
- RunRefinesReplay: one cover per stream, sequences from 0, and business code that leaves the live state and its identity alone (`DecideTimeFoldExact` says why); the coordinator's admission is whether it keeps an answer.
- PrintedTreeRenders: branch texts hold no mark and no whitespace at their ends, and selects do not nest, since the interpreter scans marks flat and strips variants.
- CatalogRoundTrip: lines hold no line boundary, and continuation lines are already stripped.
- CatalogRenders: the trees are those whose printed text keeps these two conditions, since a catalog cannot hold the others.
- RunChild: the polls are the finite ones made before a stop request; duplicating and closing descriptors and installing handlers do not fail; the wait after the handshake has no effect to model.
- SupervisorTick: the endless loop is a sequence of ticks; a probe that raises or times out is one that did not hold; `TransportSignal` is one probe result.
- StartServing: start and stop do not overlap; what an application service adds to the server is not modelled.
- AddComponent: a table is a value, so the version stamped on the caller's own table object, and a version the caller sets on it later, are not modelled.
- AnswersReportDescribedVersion: speaks of `handle`; what policies and projectors answer carries no version.
- DescribeComponent: the base resolutions are a parameter, because the generated enum's numbers are not in the repository.
- Integer widths of sequences, protobuf encoding, `Any` packing and the generated key, status and argument tables: generated code that is not part of this model. The state codec is any pair of functions of which decoding inverts encoding.
- The gRPC status a key declares: an error's status is None where the declared one applies.
- Surrogates in Python text: a Dafny `char` is a Unicode scalar value.
- The recursion limit of Python: rendering recurses as deep as variants nest.
- Policies, projectors, gRPC clients, channels, retries, validation and logging: filters over the fold proved here, or plumbing.
- `resolve_socket_path`, `render` and the merging of catalogs: environment and file access around the functions proved.
