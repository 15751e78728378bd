# Models and proofs for the platform

A Dafny model of the parts of this repository whose behaviour is hardest to see from
reading one function, with proofs about every input, every run or every reachable state.
`dafny verify dfyconfig.toml` checks the whole project.

What is modelled, file by file:

- **The template runtime** (`docs/handoff/support.js`).
  `Expressions`, `ExpressionSyntax`, `ExpressionAgreement`, `ExpressionScope`: the
  expression evaluator that parses and evaluates in one pass, against a printer of trees;
  `ExpressionLaws` says in literal characters and values what it gives.
  `CssScan`, `CssTokens`, `CssImportant`, `CssImportantProofs`: the character loops that
  strip comments from rules and mark declarations, against a token grammar, with `CssLaws`
  in literal characters.
  `Holes`, `TemplateCompiler`, `TemplateMeaning`, `TemplateScope`, `SwallowedHoles`: the
  compiler from document trees to closures, against an interpreter of templates, with
  `TemplateLaws` about the output of each kind of node.
  `Lifecycle`: the logic instances behind a component. `StreamTracker`: the map of
  streaming names. `AttributeNames`, `ContentKey`: the attribute-name codec and the hash.
- **Refresh-token rotation.** `RefreshTokens`: the repository and the two handlers.
  `RotationAccounting`: whole runs of operations. `RefreshProtocol`: consoles, middleware
  and handler interleaved at their awaits. `ConsoleSession`: the console's own code.
- **The Idempotency-Key protocol** of starting an instance: `Idempotency`.
- **The migration runner**: `Migrations` for one run, `MigrationRunners` for interleaved
  and crashing ones.
- **The outbox** of effects: `Outbox` for the tables and the code, `OutboxRuns` for advances,
  parallel and crashing dispatchers, dead letters, retries and the host's own events
  interleaved, `OutboxLaws` for what each effect and row does in literal values, and
  `LostEffects` and `HostNotes` for what goes wrong between them.
- **The XES export**: `HistoryExport` for the cursor loop, `Xes` for the text, `XesReader`
  for a reader written from the XML side, `XesRoundTrip`, `XesLogs` and `XesExport` for
  what that reader gets back.
- **The worker's polling and waker**, and the benchmark's percentile: `Polling`,
  `Percentile`.

Loops and mutable objects of the source are methods and classes proved equal to
specification functions; the main results are lemmas about those functions and about
runs of steps. `Text`, `JsValues` and `Options` hold what the others share.

Where the code and its description differ, the model follows the code:

- A chain of equalities groups to the right (`ChainGroupsRight`); exactly when a chain of
  strict ones still has the value JavaScript gives it is `ChainAsJavaScriptIff`. A quoted
  text with an equality operator in it is not a text (`QuotedTextIff`).
- An attribute with a hole at each end is one hole (`Swallowed`); exactly when several
  holes denote their woven text is `SeveralHolesIff`.
- A logic class that arrives between construction and first commit is mounted twice, and
  the instance it replaces is unmounted without a mount (`LateClassMountsTwice`); exactly
  when this can happen is `LifecycleIff`.
- The comment at `apps/api/src/routes/runtime.ts:65` promises a conflict for a key reused
  with another body; under a race both requests are answered 201 (`RaceAnswersBoth`);
  exactly when there is a conflict is `ConflictIff`.
- The comment at `packages/db/src/runtime/outbox.ts:98` promises that an effect whose attempts
  are used up becomes an incident. One that was retried and fails again does not: its incident's
  key is taken, and the row is deleted all the same (`EffectLost`); exactly when an effect is
  accounted for is `AccountedIff`.
- The comment at `packages/db/src/agent/agentTrail.ts:104` promises one row for each fact of an
  agent's run. Of agents that conclude at one revision only the first leaves a trail
  (`TwoTrailsIff`), and a second run of a task leaves none (`SecondRunSilent`). Two gates'
  effects are not sealed at one revision (`OneSealPerRevision`); exactly which numbers collide
  is `SameNumberIff`.
- The comment at `packages/db/src/runtime/outbox.ts:247` has a cancelled job never conclude; a
  paused one is not cancelled and goes on when it is resumed (`CancelMeans`).
- The first idle wait after start-up is 2000 ms, not the base of 1000 (`IdleFromStart`).
- An empty element or edge id is not exported (`RoundTrip` speaks of what is kept). A
  character that XML forbids makes the whole export unreadable to a conforming processor
  (`RejectedIff`), and tabs and line ends do not survive one (`ConformingIff`).
- The export drops the milliseconds of its timestamps (`TimestampIff`), so that events of one
  second share one (`SameSecondSameTimestamp`): the database driver returns dates, as `packages/db/src/audit/export.ts:262` also has it, although the
  type at `packages/db/src/runtime/instances.ts:65` says text.
- `CheckedTwiceServedTwice` shows what the server alone does not guarantee, and
  `SingleFlight` with `IdleHoldsTheOnlyLiveRow` what console and server guarantee together.

## Model

| member | source | states |
|---|---|---|
| Expressions.ScanParensWrapWhole | docs/handoff/support.js:237-247 | The loop answers whether the first parenthesis closes only at the last character: no closing one before it brings the depth to zero. |
| Expressions.ScanTopLevelEquality | docs/handoff/support.js:248-262 | The loop returns the first equality operator outside all brackets that has text to its left and does not continue another operator, in full, or nothing when there is none. |
| Expressions.ScanClosingSquare | docs/handoff/support.js:276-284 | The inner loop stops at the first closing square bracket with as many opened as closed since the opening one, or runs to the end. |
| Expressions.WalkPath | docs/handoff/support.js:263-294 | The loop over dots and brackets computes the value of the path, undefined at the first thing that is neither. |
| ExpressionAgreement.OperatorFound | docs/handoff/support.js:248-262 | After a left operand whose brackets pair up and whose own operators are bracketed, the scanner finds exactly the operator that was printed, whatever follows it. |
| ExpressionAgreement.OperandsNotWrapped | docs/handoff/support.js:208-210 | Parentheses around the two operands of one comparison are never mistaken for one pair around the whole. |
| ExpressionAgreement.PathAgrees | docs/handoff/support.js:263-294 | A printed path of dotted and nested bracketed keys evaluates to the nested member reads it denotes. |
| ExpressionAgreement.Agrees | docs/handoff/support.js:205-294 | Main result: for every well-formed expression tree (literals, restricted strings, paths, negation, the four equalities) and every scope, evaluating the printed text gives the tree's value. |
| ExpressionAgreement.QuotedTextIff | docs/handoff/support.js:211-234 | The scanners do not know about quotes: a quoted text denotes its body if and only if no equality operator is found in it outside brackets. |
| ExpressionAgreement.EqualityReads | docs/handoff/support.js:211-225 | A text is cut at an equality operator whenever the brackets before it pair up and hold every other operator there, whatever follows, unpaired brackets included, and whatever white space stands around. |
| ExpressionAgreement.ChainGroupsRight | docs/handoff/support.js:211-225 | Main result: a chain of two equalities groups to the right, for any operators, any first two operands with paired brackets and without an equality outside them, and any last operand, so for longer chains too. |
| ExpressionAgreement.ChainAsJavaScriptIff | docs/handoff/support.js:211-225 | Main result: a chain of strict operators has the value JavaScript gives it if and only if, by the operands' values: a third truth value or equal ends between two truth values, the other comparison at one, like operators without any. |
| ExpressionAgreement.EqualityChainsGroupRight | docs/handoff/support.js:211-225 | A chain that JavaScript reads otherwise: `1===2===false` is false here. |
| ExpressionScope.Coincidence | docs/handoff/support.js:205-294 | The value of any text depends on the scope only through the names that head its paths. |
| ExpressionLaws.WholeNumbersMean | docs/handoff/support.js:231 | Main result: the decimal digits of a number, with zeros in front or not, resolve to the number, and with a minus before them to its negative. |
| ExpressionLaws.FractionsMean | docs/handoff/support.js:231 | Main result: digits, a dot and `k` more digits resolve to the number before the dot and so many parts of ten to the `k`. |
| ExpressionLaws.NumberTexts | docs/handoff/support.js:231 | These are all the texts that are read as numbers. |
| ExpressionLaws.NameReads | docs/handoff/support.js:263-266 | A name, in literal characters, resolves to its binding, or to what the scope object inherits; without a scope to nothing. |
| ExpressionLaws.StepReads | docs/handoff/support.js:268-273 | A step, a name or digits, reads a property, and of undefined and null nothing. |
| ExpressionLaws.KeyReads | docs/handoff/support.js:273-287 | A key in brackets is resolved and read likewise. |
| ExpressionLaws.OperatorsMean | docs/handoff/support.js:211-225 | The four operators, by their texts, are strict and loose equality and their negations. |
| ExpressionLaws.NegationIs | docs/handoff/support.js:226 | A negation is true of undefined, null, false, zero, what is no number and the empty text, and of nothing else. |
| ExpressionLaws.LeadingOperator | docs/handoff/support.js:254-256 | An operator with nothing in front of it is none, and its rest is none either. |
| Text.TrimUnique | docs/handoff/support.js:206 | What stands between white space and is itself trimmed is what trimming returns. |
| CssScan.ScanUnquotedUrl | docs/handoff/support.js:1428-1440 | The two loops return the end of an unquoted url token that starts at the position, and -1 where none does, escapes and a missing parenthesis included. |
| CssScan.StripComments | docs/handoff/support.js:1441-1471 | The index loop with its quote register equals the token-wise specification: strings and urls are passed over whole, a comment becomes one space. |
| CssTokens.StripPrinted | docs/handoff/support.js:1441-1471 | Stripping the text of any proper token list is the text of the list with each comment turned into one space. |
| CssTokens.Tokenize | docs/handoff/support.js:1441-1471 | Every text is the text of a proper token list, unterminated strings, urls and comments included. |
| CssTokens.BlankProper | docs/handoff/support.js:1457-1461 | Turning comments into spaces leaves a proper token list: no new comment and no new `url(` appears. |
| CssTokens.StripIdempotent | docs/handoff/support.js:1441-1471 | Stripping a stripped text changes nothing, for every text. |
| CssImportant.SplitDeclarations | docs/handoff/support.js:1474-1494 | The loop with its quote, depth and url state cuts the text exactly as the specification does. |
| CssImportant.ImportantifyRule | docs/handoff/support.js:1472-1496 | The whole rewriting: strip, cut, trim, drop the empty, mark, join. |
| CssImportantProofs.StripIsClean | docs/handoff/support.js:1473 | A stripped text has no comment left for the splitter to meet. |
| CssImportantProofs.CutsCharacterised | docs/handoff/support.js:1474-1494 | Main result: a list of texts is the cuts of a comment-free text if and only if joined by semicolons it gives the text back and each piece is complete outside quotes, parentheses and urls, the last one possibly unterminated. |
| CssImportantProofs.EndingMarked | docs/handoff/support.js:1495 | Trimming a declaration and adding the mark changes nothing in how it ends, also inside an unterminated string, parenthesis or url. |
| CssImportantProofs.DeclarationsSurvive | docs/handoff/support.js:1472-1496 | Main result: for every text, reading the result again finds exactly the declarations that were written, in order, each trimmed, non-empty and ending in the mark. |
| CssImportantProofs.ImportantifyIdempotent | docs/handoff/support.js:1472-1496 | Main result: rewriting a rewritten rule changes nothing, for every text. |
| CssLaws.StringsAreNotCut | docs/handoff/support.js:1452-1456 | Main result: a string in either kind of quotation marks stands in one declaration, and whatever is in it, semicolons, parentheses and comments, is text. |
| CssLaws.StringIsWhole | docs/handoff/support.js:1479-1483 | So it does at any depth and behind any character. |
| CssLaws.CharacterIs | docs/handoff/support.js:1484-1489 | Other characters: a semicolon outside parentheses cuts, parentheses count, and a closing one too many does not. |
| CssLaws.LetterIs | docs/handoff/support.js:1428-1435 | An `u` that begins no url, because a name goes on, `rl(` does not follow or a quotation mark comes next, is a character like others. |
| CssLaws.UrlIsWhole | docs/handoff/support.js:1428-1440 | An url without quotation marks, in any mixture of cases, is passed over as a whole. |
| CssLaws.CommentIsSpace | docs/handoff/support.js:1457-1461 | A comment becomes one space. |
| CssLaws.ImportantEnds | docs/handoff/support.js:1495 | A declaration that ends in `!`, white space and `important`, in any mixture of cases, counts as important. |
| CssLaws.ImportantParts | docs/handoff/support.js:1495 | And no other does. |
| CssLaws.MarkedOne | docs/handoff/support.js:1495 | One that does not has ` !important` appended; blank ones are dropped. |
| Holes.ReadPrints | docs/handoff/support.js:407-408 | Every text is the print of a proper reading into pieces of text and holes. |
| Holes.ReadIsUnique | docs/handoff/support.js:407-408 | The reading is the only proper one: reading the print of proper pieces gives the pieces back. |
| Holes.PartsOfRead | docs/handoff/support.js:407-408 | The parts of the split are the pieces of the reading, in order. |
| TemplateMeaning.ReadTree | docs/handoff/support.js:467-497 | Every document tree is the print of a proper template. |
| TemplateMeaning.AttrCompiled | docs/handoff/support.js:401-412 | The getter of an attribute gives its meaning: the value of a whole hole, or the text with each hole's value in place, undefined and null being empty. |
| TemplateMeaning.WordsCompiled | docs/handoff/support.js:505-546 | A text node has a builder exactly when it is shown, and the builder yields its pieces. |
| TemplateMeaning.PropsCompiled | docs/handoff/support.js:719-742 | Running the property getters sets the properties that the attributes mean, a later one over an earlier one. |
| TemplateMeaning.ImportPropsCompiled | docs/handoff/support.js:597-625 | The properties of a nested component are those its attributes mean, in order, `dcProps` spread over those before it. |
| TemplateMeaning.Compiled | docs/handoff/support.js:467-625 | Main result: compiling a template to closures and running them is interpreting it, for texts, nested loops and branches, elements and nested components, under all bindings, in every context and at every place among the siblings. |
| TemplateScope.TreeAlike | docs/handoff/support.js:547-581 | The output of a template depends on the bindings only through its free names; a loop binds its item name and `$index` in its body. |
| TemplateScope.TurnAlike | docs/handoff/support.js:571-572 | One turn of a loop closes over its own names, the index last. |
| TemplateScope.OuterBindingHidden | docs/handoff/support.js:547-581 | Shadowing: what a loop's own names are bound to outside never shows in its output, unless its list reads them. |
| TemplateScope.Rendered | docs/handoff/support.js:467-482 | Main result: every node list means some template, its render is that template's meaning, and two renders whose bindings agree on the free names are equal. |
| TemplateLaws.LoopRenders | docs/handoff/support.js:547-581 | Main result: a loop over an array of n items has n turns, in order; over anything else none, or while streaming as many of undefined as the hint says. Turn i is the body under bindings that answer item i for the item name, i for `$index`, and as outside for every other name. |
| TemplateLaws.BranchRenders | docs/handoff/support.js:582-596 | Main result: a branch shows its body unless its value is one of the false ones; while streaming the hint stands in for an undefined value. |
| TemplateLaws.TextHoleShows | docs/handoff/support.js:512-544 | Main result: a hole in a text shows nothing for null and truth values, arrays and elements as they are, other values as texts, and for an undefined one its source while streaming or editing. |
| TemplateLaws.PlainTextShows | docs/handoff/support.js:505-510 | A text without braces is shown as it is, and white space without a plain space not at all. |
| TemplateLaws.AttributeHoleMeans | docs/handoff/support.js:407-410 | A hole among text in an attribute is empty for undefined and null, and else the text of its value. |
| TemplateLaws.ElementRenders | docs/handoff/support.js:719-742 | Main result: an element has its key and stamp and, for each attribute name, the property of the last attribute of that name: a style text as an object, `checked` and `value` never undefined; its children are rendered in its bindings. |
| TemplateLaws.ClassesFollow | docs/handoff/support.js:737-739 | The classes of pseudo styles follow the class that was set, if it is none of the false values, with spaces between. |
| TemplateLaws.ImportRenders | docs/handoff/support.js:607-624 | A nested component has its wiring, and children if there are any. |
| TemplateLaws.ImportPropertyIs | docs/handoff/support.js:613-621 | One attribute more sets its property, but `dcProps` spreads an object over those before it and passes over anything else. |
| SwallowedHoles.Swallowed | docs/handoff/support.js:402-406 | An attribute that starts with a hole and ends with another is taken for one hole whose source runs from the first to the last. |
| SwallowedHoles.SwallowedValue | docs/handoff/support.js:401-412 | The value of such an attribute is never a text, but undefined or a truth value (and which), unless its first source is a name that leaves a square bracket open, opens a parenthesis it does not close, or begins with the quotation mark that the last one ends with. |
| SwallowedHoles.SeveralHolesIff | docs/handoff/support.js:401-412 | Main result: an attribute of two or more holes, with a first source as above, denotes its woven text if and only if it is not taken for one hole. |
| SwallowedHoles.OpenSquareDenotesText | docs/handoff/support.js:263-294 | Closing the square brackets is needed: `{{a[}}x{{]}}` is taken for one hole and can still denote its woven text. |
| AttributeNames.DecodeEncodedIff | docs/handoff/support.js:365-390 | Encoding then decoding an attribute name is the identity if and only if no hyphen stands right before a small letter. |
| AttributeNames.EncodeDecodedIff | docs/handoff/support.js:365-390 | Decoding then encoding is the identity if and only if the name has no capital. |
| AttributeNames.MatchedNamesSurvive | docs/handoff/support.js:365-424 | Every name the encoder matches is written with its prefix and without capitals, so the HTML parser keeps it, and is read back; the bare name would have lost its capitals. |
| AttributeNames.WrittenEach | docs/handoff/support.js:365-375 | A capital is written as a hyphen and the letter 32 codes on, anything else as it is, after the prefix. |
| ContentKey.Hash | docs/handoff/support.js:703-712 | The shift-and-truncate loop equals, modulo 2^32, the polynomial in 33 with the seed 5381 as its leading coefficient. |
| ContentKey.PolynomialAppend | docs/handoff/support.js:710 | One more character multiplies the polynomial by 33 and adds its code. |
| ContentKey.TurnIsHorner | docs/handoff/support.js:710 | One turn in signed 32-bit arithmetic is one Horner step modulo 2^32. |
| ContentKey.SeedIs | docs/handoff/support.js:709-710 | The seed is 5381, the base 33 and the word 2^32, in numbers. |
| Lifecycle.StreamableComponent.constructor | docs/handoff/support.js:846-853 | A new component holds a new logic instance, or one of the base class and a note of the attempt when the constructor throws. |
| Lifecycle.StreamableComponent.BuildLogic | docs/handoff/support.js:870-890 | Building an instance replaces the current one and sets or clears the note of failure. |
| Lifecycle.StreamableComponent.ReconcileLogic | docs/handoff/support.js:906-922 | The instance is kept while the class is the same or known to fail; otherwise it is told to unmount if it was mounted, replaced, and its mount left for the next commit. |
| Lifecycle.StreamableComponent.RenderOnce | docs/handoff/support.js:959-1002 | A render reconciles the logic unless the import is circular or an error is shown. |
| Lifecycle.StreamableComponent.ComponentDidMount | docs/handoff/support.js:923-930 | The first commit mounts the current instance. |
| Lifecycle.StreamableComponent.ComponentDidUpdate | docs/handoff/support.js:931-948 | A later commit mounts an instance that waits for it, unless an error is shown or the template is missing, and otherwise updates it. |
| Lifecycle.StreamableComponent.ComponentWillUnmount | docs/handoff/support.js:949-958 | The removal unmounts the instance unless it never was mounted. |
| Lifecycle.StepSound | docs/handoff/support.js:906-958 | Every step but a swap before the first commit keeps each instance in the order mount, updates, unmount. |
| Lifecycle.EarlySwapBreaks | docs/handoff/support.js:913-919 | A swap before the first commit tells an instance to unmount that was never mounted. |
| Lifecycle.CleanCounts | docs/handoff/support.js:868-958 | In numbers: an instance is mounted at most once, unmounted at most once, and only if it was mounted. |
| Lifecycle.LifecycleIff | docs/handoff/support.js:868-958 | Main result: in every run of renders, commits, hot swaps, failing constructors, crashes and the removal, every instance is mounted once, then updated, then unmounted once, if and only if nothing is swapped before the first commit. |
| Lifecycle.NobodyLeftMounted | docs/handoff/support.js:906-958 | Main result: while the component is there only its current instance can be live, and once it is gone every instance that was mounted was unmounted. |
| Lifecycle.RenderThenCommit | docs/handoff/support.js:906-948 | A render leaves an instance of the registry class, or of the base class where that one is known to fail, and the next commit without an error and with a template leaves it mounted. |
| Lifecycle.SteadySwapsEarlyIff | docs/handoff/support.js:783-922 | If the registry entry and the props hold still until the first commit, an instance is swapped early if and only if the constructor throws, a prop other than `children` is not a number, so that the shallow comparison fails, and the component is drawn before the commit. |
| Lifecycle.LateClassMountsTwice | docs/handoff/support.js:906-940 | The condition is needed: a class that arrives between construction and first commit is mounted twice. |
| Lifecycle.CommitTells | docs/handoff/support.js:923-948 | Main result: the first commit tells the instance of its mount, and so does the first one after a swap with a template and no error; any other commit tells an instance that does not wait of an update. |
| Lifecycle.RenderReplaces | docs/handoff/support.js:906-922 | A render replaces the instance exactly if the registry's class is another one and not known to fail with this version and these props; who is told, who waits and what is remembered. |
| Lifecycle.RemovalTells | docs/handoff/support.js:949-958 | The removal tells the instance to unmount unless it still waits for its mount. |
| StreamTracker.Tracker.Push | docs/handoff/support.js:1733-1737 | A push is recorded under its name, a stop removes it, one for the model viewport is ignored. |
| StreamTracker.Tracker.Live | docs/handoff/support.js:1724-1739 | The pruned map answers for a name as a replay of the whole push history does. |
| StreamTracker.Tracker.LiveAtAll | docs/handoff/support.js:1738-1742 | The names are asked in order, each at its own reading of the clock, and the answer is whether one is live at its reading in the whole history; so what is live at the last reading is found, and what is found was live at the first. |
| StreamTracker.OthersDoNotMatter | docs/handoff/support.js:1722-1745 | Pushes of other names change nothing for a name. |
| StreamTracker.LiveForAMinute | docs/handoff/support.js:1722-1745 | A name that was started and not pushed since is live for 60 seconds and no longer, whatever else was pushed. |
| RefreshTokens.TenantOfOwnToken | apps/api/src/routes/auth.ts:124-126 | A token text names the tenant it was issued for. |
| RefreshTokens.TenantOfIs | apps/api/src/routes/auth.ts:124-126 | A token text names exactly the text before its first dot, if there is any. |
| RefreshTokens.Repository.Create | apps/api/src/testing/fakes.ts:45-57 | A row is appended with the next number. |
| RefreshTokens.Repository.Find | apps/api/src/testing/fakes.ts:58-62 | The first row of the tenant with the hash, if any. |
| RefreshTokens.Repository.Revoke | apps/api/src/testing/fakes.ts:63-69 | The first row of the tenant with the number is revoked, and nothing else changes. |
| RefreshTokens.Repository.RevokeAllForUser | apps/api/src/testing/fakes.ts:70-77 | Exactly the unrevoked rows of that user of that tenant, but the excepted one, are revoked. |
| RefreshTokens.Login | apps/api/src/routes/auth.ts:51-98 | The reply and the table after a login, each refusal included. |
| RefreshTokens.Refresh | apps/api/src/routes/auth.ts:111-161 | The reply and the table after a refresh, each refusal included: malformed, unknown, revoked, expired, no user, inactive user. |
| RotationAccounting.StepKeeps | apps/api/src/testing/fakes.ts:45-77 | Every operation keeps row numbers and hashes distinct, only adds rows, and never revives one. |
| RotationAccounting.AcceptedOnce | apps/api/src/routes/auth.ts:123-148 | Main result: in every run of logins, refreshes and revocations no token is accepted twice. |
| RotationAccounting.LoginIff | apps/api/src/routes/auth.ts:60-86 | Main result: a login succeeds exactly for an active user with the right password; otherwise the table is left alone. |
| RotationAccounting.RefreshIff | apps/api/src/routes/auth.ts:123-148 | Main result: a refresh succeeds exactly if the token has a row that is unrevoked and not too old and whose user is there and active; otherwise the table is left alone. |
| RotationAccounting.RefusedChangesNothing | apps/api/src/routes/auth.ts:60-148 | In every run a login with a wrong password, of nobody or of an inactive user, and a refresh without such a row, leave the table as it was. |
| RotationAccounting.LoginIssuesGoodToken | apps/api/src/routes/auth.ts:75-86 | The token a login hands out is accepted exactly until it expires and while its user is active. |
| RotationAccounting.RefreshIssuesGoodToken | apps/api/src/routes/auth.ts:140-148 | So is the token a refresh hands out, and the one it replaces is refused for good: with every table that comes of the new one, at any time. |
| RotationAccounting.RefreshConserves | apps/api/src/routes/auth.ts:140-148 | A refresh leaves every user with as many live rows as before. |
| RotationAccounting.LoginAddsOne | apps/api/src/routes/auth.ts:75-86 | A login that succeeds gives its user one more live row and nobody else any. |
| RotationAccounting.RevokeAllLeaves | apps/api/src/testing/fakes.ts:70-77 | Revoking all leaves the user the excepted row if it was live and theirs, and every other user of every tenant untouched. |
| RotationAccounting.CheckedTwiceServedTwice | apps/api/src/routes/auth.ts:127-148 | Check and revocation are separate awaits: two requests that both checked a token before either revoked it are both served, and the user ends with one live row more. |
| ConsoleSession.Session.constructor | apps/console/src/session.ts:30-33 | A page load starts from session storage alone, without an access token and without a refresh under way. |
| ConsoleSession.Session.Apply | apps/console/src/session.ts:69-78 | Applying a payload replaces the access token and the stored refresh token, or only the access token where storage cannot be written. |
| ConsoleSession.Session.ClearSession | apps/console/src/session.ts:80-89 | Clearing drops the access token, and the stored one where storage can be written. |
| ConsoleSession.Session.BeginRefresh | apps/console/src/session.ts:110-113 | A refresh under way is shared, without a stored token there is none, otherwise the stored token is sent and the promise kept. |
| ConsoleSession.Session.EndRefresh | apps/console/src/session.ts:114-131 | The reply replaces or clears the session; a call that throws leaves the tokens alone; the promise is dropped in every case. |
| ConsoleSession.Session.OnStatus | apps/console/src/api/client.ts:22-29 | Only a 401 outside the auth routes touches the session or refreshes. |
| ConsoleSession.Session.Resume | apps/console/src/api/client.ts:25-34 | After the refresh there is one retry with the current access token, or the session is cleared. |
| ConsoleSession.Session.Boot | apps/console/src/shell.tsx:28-38 | Without a user but with a stored token the shell refreshes when it is mounted, sharing a refresh under way. |
| ConsoleSession.OnResponseIsSession | apps/console/src/api/client.ts:21-35 | The protocol's step for a response is what the session's methods do to console, request and wire. |
| ConsoleSession.OnReplyIsSession | apps/console/src/session.ts:114-131 | So is the protocol's step for a reply. |
| ConsoleSession.OnBootIsSession | apps/console/src/shell.tsx:28-38 | And so is its step for the refresh after a page load. |
| RefreshProtocol.StepOk | apps/console/src/session.ts:105-132 | Every step of every console, page load, request, server handler, a handler that fails at an await included, and revocation from elsewhere keeps the invariant. |
| RefreshProtocol.SingleFlight | apps/console/src/session.ts:105-132 | Main result: under every interleaving of 401s, page loads with their own refresh, server steps, replies and revocations from elsewhere, a console has at most one undelivered refresh, and no token is ever presented twice. |
| RefreshProtocol.IdleHoldsTheOnlyLiveRow | apps/api/src/routes/auth.ts:123-148 | Main result: between refreshes, also after a page load, no row of the rotation chain but the stored token's can be live, and that one is, unless the chain was cut by a revocation from elsewhere. |
| RefreshProtocol.NeverRefusedAsUsed | apps/api/src/routes/auth.ts:127-132 | Main result: a console presents a revoked token only if its chain was cut from elsewhere; otherwise the handler refuses it for its age or its user only. |
| RefreshProtocol.NothingCut | apps/api/src/routes/auth.ts:123-148 | A run without a revocation from elsewhere cuts no chain. |
| RefreshProtocol.ReplyResumesAll | apps/console/src/api/client.ts:25-34 | When the reply arrives every request that shared the refresh goes on: one retry with the new access token, or none. |
| RefreshProtocol.CheckThenRevoke | apps/api/src/routes/auth.ts:127-140 | The handler accepts a live token however often it is checked, and stops only after a revocation. |
| RefreshProtocol.HandlerInOneGo | apps/api/src/routes/auth.ts:123-148 | Main result: the awaits of the protocol in a row, with nothing in between, are the handler: its reply and its table. |
| RefreshProtocol.SignInIsLogin | apps/api/src/routes/auth.ts:75-98 | A sign-in of the protocol is a login that succeeds, and the console keeps what it answers. |
| RefreshProtocol.ReplySettles | apps/console/src/session.ts:114-131 | A reply that is not ok leaves the console without tokens, any other with both new ones; other consoles are untouched. |
| RefreshProtocol.ResponseActs | apps/console/src/api/client.ts:21-35 | A response passes unless it is a 401 outside the auth routes; then the request waits for the refresh under way or for one that presents the stored token, or is given up without one. |
| RefreshProtocol.LoadForgets | apps/console/src/session.ts:30-33 | A page load forgets the access token and keeps the stored one; signing out forgets both. |
| Idempotency.StartInstance | apps/api/src/routes/runtime.ts:63-103 | The handler without interruption: what it answers and writes is the steps of the protocol in a row. |
| Idempotency.StepOk | apps/api/src/routes/runtime.ts:63-103 | Every step of every interleaving keeps the invariant and every record. |
| Idempotency.WriteOnce | apps/api/src/routes/runtime.ts:92-95 | Main result: a key's record, once written, never changes. |
| Idempotency.RepliesAgree | apps/api/src/routes/runtime.ts:69-103 | Main result: every keyed 201 has a record, a request with the record's body is answered with the record's response, and that is an instance made for that key and body. |
| Idempotency.MadeOnceUnseen | apps/api/src/routes/runtime.ts:69-81 | Main result: no instance is made for a request whose first read saw the record, and none twice for one request. |
| Idempotency.ConflictIff | apps/api/src/routes/runtime.ts:69-74 | Main result: every keyed request that was answered has looked at one step, and it is answered with the conflict if and only if the store then held a record of its key for another body. |
| Idempotency.DifferentBody | apps/api/src/routes/runtime.ts:71-74 | A request with another body gets the conflict if and only if its key had its record when it looked; a 201 means it raced past it and got its own instance. |
| Idempotency.RaceAnswersBoth | apps/api/src/routes/runtime.ts:65-99 | The promised conflict is not kept under a race: for every key and any two bodies there is a run in which both are answered 201, with two instances. |
| Migrations.SortSqlSorted | packages/db/src/migrate.ts:34 | The file list is the `.sql` names of the directory, sorted and without duplicates. |
| Migrations.BeforeIsByUnits | packages/db/src/migrate.ts:34 | The order is that of `sort`: by UTF-16 code units, so that a name outside the basic plane comes before one from U+E000 on. |
| Migrations.Database.Transact | packages/db/src/migrate.ts:60-63 | A file and its row are committed together or not at all. |
| Migrations.Migrate | packages/db/src/migrate.ts:22-70 | The runner's outcome, table and executed scripts are those of the specification, on failing exits too. |
| Migrations.DoneIff | packages/db/src/migrate.ts:34-66 | Main result: a run succeeds if and only if every recorded file is there unchanged and no new script is rejected; the table is then the directory's checksum map, and `applied` and `skipped`, each in name order, divide the file list by what was recorded. |
| Migrations.RerunAppliesNothing | packages/db/src/migrate.ts:34-66 | Main result: an immediate rerun applies nothing, executes nothing and skips every file. |
| Migrations.RunEnds | packages/db/src/migrate.ts:34-66 | Main result: how every run ends: at once for a recorded file that is gone, else at the first file in order that was changed or whose script is rejected, named in the error; what was gone through before is recorded and, if new, executed, and nothing else is. |
| Migrations.SqlFilesAre | packages/db/src/migrate.ts:34 | The files are the names of the directory that end in `.sql`. |
| MigrationRunners.ExecutedOnce | packages/db/src/migrate.ts:28-66 | Main result: with runners interleaved between transactions, crashing and starting again, and files appearing, no file is executed twice, and the executed files are exactly those in the table with the checksum of the content executed. |
| MigrationRunners.NeverRewritten | packages/db/src/migrate.ts:60-63 | Main result: a recorded checksum never changes and what was executed stays executed. |
| MigrationRunners.FinishedMeansRecorded | packages/db/src/migrate.ts:47-66 | Main result: a runner that finished leaves every file it listed in the table. |
| MigrationRunners.ReadMeans | packages/db/src/migrate.ts:48-56 | A runner goes on past a script exactly if it was recorded with the text it has now, holds it exactly if it was not recorded, and stops otherwise. |
| Outbox.Database.InsertEffects | packages/db/src/runtime/outbox.ts:42-58 | The loop puts the effects of an advance into the queue, one under each key that does not wait already. |
| Outbox.Database.ApplyEffect | packages/db/src/runtime/outbox.ts:186-347 | One effect: what is written once per key, the incident in place of an agent's job without a pin, and the one refusal, of an event whose number another has. |
| Outbox.Database.DispatchRow | packages/db/src/runtime/outbox.ts:144-180 | One row: applied and deleted, put off with a backoff, or given up and turned into an incident unless its key has one. |
| Outbox.Database.DispatchOnce | packages/db/src/runtime/outbox.ts:114-183 | A pass treats its rows in order and reports what became of them; a process that dies on the way leaves every table as it was. |
| Outbox.BatchLeaves | packages/db/src/runtime/outbox.ts:137-183 | Every row of a pass is counted once, and no other row is added or removed. |
| Outbox.Database.InsertAuditEvent | packages/db/src/runtime/audit.ts:10-37 | The host's own event takes the next number of its revision's band, or fails when the band is used up. |
| Outbox.Database.RetryIncident | packages/db/src/runtime/operate.ts:106-163 | The retry of an open incident puts a dead letter's effect back, or sets the instance's failed jobs free, and records the event; or nothing changes. |
| Outbox.Database.ResolveIncident | packages/db/src/runtime/operate.ts:180-203 | An incident is resolved once, with an event, or nothing changes. |
| Outbox.Database.InsertNotes | packages/db/src/agent/agentTrail.ts:128-153 | The host's notes of one transaction: one whose key is there is left alone, and one whose number another event has undoes them all. |
| Outbox.Database.PersistAgentTrail | packages/db/src/agent/agentTrail.ts:112-155 | An agent's trail, fact by fact, is written as a whole or not at all. |
| OutboxRuns.TurnsAreBatch | packages/db/src/runtime/outbox.ts:137-183 | The batches of the protocol are the passes of the code, and what these report is what was applied and given up. |
| OutboxRuns.StepOk | packages/db/src/runtime/outbox.ts:114-183 | Every advance, claim, commit, crash, retry, resolution, outside change, audit event and transaction of the host's notes (trails, seals, new proposals, resumptions, pins) keeps the invariant and takes no event, incident or created row back. |
| OutboxRuns.AppliedOnce | packages/db/src/runtime/outbox.ts:98-113 | Main result: under every interleaving of dispatchers, crashes and retries no effect is applied twice; one that was applied has left its trace and never waits again. |
| OutboxLaws.CancelMeans | packages/db/src/runtime/outbox.ts:246-261 | A cancellation cancels what is live, for its instance, and nothing else: what is done, failed or paused stays as it is, and so do all other tables. |
| OutboxLaws.CancelTurn | packages/db/src/runtime/outbox.ts:144-149 | So does the turn that dispatches it. |
| OutboxLaws.CreateTurn | packages/db/src/runtime/outbox.ts:186-257 | The turn of a creation leaves a new wait live and with the effect's instance, and one that is there as it is. |
| OutboxLaws.CreateAgentMeans | packages/db/src/runtime/outbox.ts:195-228 | An agent's job is created like any other if its element is pinned, and otherwise there is an incident. |
| OutboxLaws.PinnedCreates | packages/db/src/runtime/outbox.ts:195-228 | Once an element was pinned for an instance, every agent's job of it is created. |
| OutboxLaws.CancelledForGood | packages/db/src/runtime/operate.ts:150-153 | Main result: in every run, what was cancelled or done stays so: no step sets it free, not even the retry of an incident. |
| OutboxLaws.RowMeans | packages/db/src/runtime/outbox.ts:93-180 | Main result: a row is applied and deleted, or put off by 2, 4, 8, 16, 32 and then 60 seconds, or given up at the last of its attempts, with an incident unless it had one. |
| OutboxLaws.RetryMeans | packages/db/src/runtime/operate.ts:106-163 | What a retry does to each table, and exactly when there is one. |
| OutboxLaws.NextAuditMeans | packages/db/src/runtime/audit.ts:18-30 | The audit's next number is the one after the greatest used of the revision's last 10000, or the first of them. |
| OutboxRuns.AccountedIff | packages/db/src/runtime/outbox.ts:98-113 | Main result: an issued effect waits, was applied, has an open incident, or was resolved by hand, and just one of these, if and only if it was not given up twice. |
| OutboxRuns.LostForGood | packages/db/src/runtime/outbox.ts:158-171 | An effect that is none of these stays so in every continuation. |
| OutboxRuns.GivenUpLostIff | packages/db/src/runtime/outbox.ts:158-170 | A row that is given up is lost exactly if its effect had an incident before. |
| LostEffects.EffectLost | packages/db/src/runtime/outbox.ts:158-170 | For every effect but the completion of an instance, and however many attempts are allowed, there is a run that ends so: given up, retried, given up again, and no incident is open. |
| OutboxRuns.NumberKept | packages/db/src/runtime/outbox.ts:60-69 | Main result: an event keeps its number and content in every run; the number of an effect's event is that of its revision and position, on whichever dispatch it was written, and a note's the one it asks for. |
| OutboxRuns.SeqOrder | packages/db/src/runtime/outbox.ts:60-69 | Below 100000 effects an advance the numbers are ordered as advances and effects are, and differ for different ones. |
| OutboxRuns.RefusedByHost | packages/db/src/runtime/outbox.ts:325-334 | Main result: a waiting effect is refused only because the host has taken its number, by a note or an audit event of the same revision and from index 50000 on (its audit: from 90000 on), and never because of another effect. |
| OutboxRuns.NoneRefused | packages/db/src/runtime/outbox.ts:325-334 | So while no advance has more than 50000 effects, and no trail or count runs out of its revision, the database refuses no effect. |
| OutboxRuns.BandTaken | packages/db/src/runtime/audit.ts:20-37 | The bound is needed: the host's audit can take the number of a waiting effect, which is then refused. |
| OutboxRuns.FactTakes | packages/db/src/agent/agentTrail.ts:144-152 | And a fact of an agent's trail can take the number of any waiting effect from index 50000 on. |
| HostNotes.SameNumberIff | packages/db/src/agent/gateFio.ts:195-202 | Main result: exactly when two of the host's notes have one number: two seals of one revision always, two facts of one step and revision, two new proposals of one count and revision, and so on for every pair of kinds, whatever the elements are. |
| HostNotes.SameNumberAsAuditIff | packages/db/src/runtime/audit.ts:18-30 | And exactly when a note has the number of an event of the audit. |
| HostNotes.TrailIff | packages/db/src/agent/agentTrail.ts:128-153 | A trail is written if and only if each fact was noted before or finds its number free; nothing else is changed by it. |
| HostNotes.TwoTrailsIff | packages/db/src/agent/agentTrail.ts:144-152 | Main result: of two agents' trails both are written if and only if the agents conclude at different revisions; at one revision the second is lost as a whole. |
| HostNotes.OneTrailPerRevision | packages/db/src/agent/agentTrail.ts:144-152 | Main result: in every run, once a trail was written at a revision, that of another element is refused at it for good. |
| HostNotes.OneSealPerRevision | packages/db/src/agent/gateFio.ts:195-202 | Main result: in every run, once one gate's effect was sealed at a revision, another gate's is refused at it for good. |
| HostNotes.SecondRunSilent | packages/db/src/agent/agentTrail.ts:144-152 | Main result: the key of a fact has no revision in it, so that a second run of an agent's task leaves no trail of the steps that the first run has written. |
| HistoryExport.PageCovers | packages/db/src/runtime/instances.ts:83-105 | A page holds, in increasing order, exactly the events from its cursor to the next cursor, at most the limit; a page without a next cursor reaches the end. |
| HistoryExport.PageIsFull | packages/db/src/runtime/instances.ts:83-105 | A page has as many events as are left behind the cursor, but no more than the limit, which is at least 1 and at most 100; it has a next cursor exactly if events are left behind it. |
| HistoryExport.Export | apps/api/src/routes/runtime.ts:246-260 | Main result: over a history that grows meanwhile the loop ends and collects events in strictly increasing order, without duplicates, all recorded, among them every event there was at the start. |
| HistoryExport.QuietExportIsHistory | apps/api/src/routes/runtime.ts:246-260 | With nothing recorded meanwhile the export has as many events as the history. |
| HistoryExport.ExportXes | apps/api/src/routes/runtime.ts:241-266 | The whole request: the collected rows are recorded, increasing and complete for the start, and a reader of the text that is sent recovers the event of every row, in order. |
| Xes.InstanceHistoryToXes | apps/api/src/xes.ts:23-52 | The loop of pushes writes the text of the specification. |
| Xes.EventLinesAre | apps/api/src/xes.ts:39-48 | The lines of an event in literal keys: its kind, time, transition and number, and its ids where they are not empty. |
| XesRoundTrip.EscQuotable | apps/api/src/xes.ts:15-21 | An escaped value has no quote and no angle bracket, as section 2.3 of XML 1.0 asks of AttValue. |
| XesRoundTrip.UnescapeEsc | apps/api/src/xes.ts:15-21 | Replacing the entity references undoes the escaping, for every string. |
| XesRoundTrip.NormaliseEsc | apps/api/src/xes.ts:15-21 | Attribute-value normalisation commutes with escaping: no line end is written as a reference. |
| XesRoundTrip.NumberOfDecimal | apps/api/src/xes.ts:45 | A printed sequence number reads back. |
| XesRoundTrip.ReadRow | apps/api/src/xes.ts:27-48 | A reader of XML gets each printed tag back, with its attributes, whatever stands around it. |
| XesLogs.ReadExport | apps/api/src/xes.ts:23-52 | A reader sees exactly the tags of the export, in order. |
| XesExport.ReadBack | apps/api/src/xes.ts:23-52 | Either kind of reader gets the log back up to what it does to each string; a conforming one only if the text consists of XML characters. |
| XesExport.RoundTrip | apps/api/src/xes.ts:23-52 | Main result: a reader that takes values up to the next quote and unescapes them recovers the title, the instance name, the number and order of the events, and each event's kind, number, timestamp and non-empty ids, for arbitrary strings. |
| XesExport.XmlText | apps/api/src/xes.ts:15-52 | The text consists of XML characters if and only if every printed string does. |
| XesExport.RejectedIff | apps/api/src/xes.ts:15-52 | Main result: a conforming XML processor rejects the text if and only if a printed string holds a character that XML 1.0 forbids. |
| XesExport.ControlCharacterRejected | apps/api/src/xes.ts:35 | A business key of one control character makes a text that no conforming processor reads. |
| XesExport.ConformingIff | apps/api/src/xes.ts:15-52 | Main result: a conforming XML processor recovers the same log if and only if every printed string consists of XML characters (section 2.2 of XML 1.0) and holds no tab and no line end, which the export writes as they are. |
| Polling.Loop | apps/worker/src/main.ts:353-363 | The waits of the outer loop and the start of every tick are those of the specification; a tick that threw counts as idle. |
| Polling.IdleAfterBusy | apps/worker/src/loop.ts:12-17 | After a busy tick the k-th idle wait is 1000 doubled k - 1 times, at most 60000. |
| Polling.IdleFromStart | apps/worker/src/main.ts:353 | From the start of the process the k-th idle wait is 1000 doubled k times: the first one is already 2000. |
| Polling.WaitsBounded | apps/worker/src/loop.ts:7-17 | Every wait that is chosen lies between 100 and 60000, and is 100 exactly after work. |
| Polling.NextTickWithinFallback | apps/worker/src/main.ts:353-363 | Every tick starts within 60000 of the last one's end: exactly the chosen wait after it, or when a notify comes if that is sooner. |
| Polling.Waker.Sleep | apps/worker/src/loop.ts:28-40 | A sleep sets its timer and becomes the pending one. |
| Polling.Waker.TimerFires | apps/worker/src/loop.ts:30-33 | A timer that goes off resolves its own sleep and leaves nothing pending. |
| Polling.Waker.Wake | apps/worker/src/loop.ts:34-43 | A wake resolves the pending sleep and clears its timer, or does nothing. |
| Polling.EverySleepOnce | apps/worker/src/loop.ts:25-45 | Main result: under every interleaving of one sleeper, its timers and wakes, no sleep is resolved twice, an unresolved one can be resolved by its timer and by a wake, and no stale timer disarms a later sleep. |
| Polling.ResolvedStays | apps/worker/src/loop.ts:25-45 | A resolution is never taken back. |
| Polling.StaleTimerDisarms | apps/worker/src/loop.ts:25-45 | One sleeper is needed: whenever the timer of another sleep goes off while one is pending, a wake resolves nobody and the pending sleep goes on until its own timer. |
| Percentile.Monotone | apps/api/bench/advance-p95.ts:19-26 | Every percentile of a sorted sample exists and grows with `p`, across cells too. |
| Percentile.Reported | apps/api/bench/advance-p95.ts:19-26 | The reported figures are ordered and lie between the first and the last sample. |
| Percentile.ExistsIff | apps/api/bench/advance-p95.ts:19-26 | Of two or more samples there is a percentile exactly from 0 to 100. |
| Percentile.Interpolated | apps/api/bench/advance-p95.ts:19-26 | Between two samples the percentile is the mixture of the two by how far along it lies. |

## Left out

- Expressions.Resolve: loose equality, property reads (getters and exceptions too), names inherited by a scope object and `String(v)` are open functions of a `World`; numbers are exact reals, so neither rounding nor negative zero shows.
- ExpressionAgreement.Agrees: text literals avoid brackets, quotes, `=` and `!`, because the scanners do not know about quotes; what happens otherwise is `QuotedTextIff`.
- ExpressionAgreement.ChainAsJavaScriptIff: loose operators, since loose equality is open.
- Text.Trim: strings are sequences of Unicode scalar values, so a lone surrogate of a JavaScript string has no counterpart.
- TemplateMeaning.Compiled: `x-import` and the helmet, which load foreign code and manage the document head; the HTML parser; attributes carry the property names they were given, pseudo styles the classes made for them, and a `style` is handed on as a text or as the value whose position counts.
- SwallowedHoles.SeveralHolesIff: a first source that is a name and leaves a square bracket open, that opens a parenthesis without closing it, or that begins with the quotation mark the last one ends with; there the swallowed source can be a text again.
- ContentKey.Hash: the cloning that strips attributes, and the base-36 spelling of the number.
- AttributeNames.MatchedNamesSurvive: finding the names inside an HTML text; the codec is stated name by name.
- Lifecycle.LifecycleIff: `state` carried over a swap, errors thrown by lifecycle calls (they are caught and logged), and React's development-mode double mounting.
- StreamTracker.Tracker.LiveAtAll: a clock that goes back.
- RefreshProtocol.SingleFlight: a lost reply, signing in or out or loading the page during a refresh, a call that throws, storage that cannot be written, and duplicated tabs sharing one storage; secrets are fresh and the hash is injective. Without these the single use rests on nothing, as `CheckedTwiceServedTwice` shows.
- RefreshTokens: JWT signing, password hashing and the database; `revoked_at` is a flag.
- Idempotency.WriteOnce: the 24-hour sweep of records; `put` inserts only if the key has no record.
- Migrations.Migrate: what a script does besides succeeding or failing; the checksum is injective.
- MigrationRunners.ExecutedOnce: a script and its row are one atomic transaction and the table's primary key refuses a second row, as the database promises.
- OutboxRuns.AppliedOnce: the statements of one transaction take effect together when it commits; the hash of a key is injective; the order and the limit in which rows are claimed (any rows that are due and unlocked may be).
- Outbox.Database.ApplyEffect: what a payload is made of (the refs of a pin, gates and their proposals, the pinned definition), the text of an incident, and incidents that come neither of an effect nor of a dead letter.
- HostNotes.TwoTrailsIff: what the facts say, and the masking of what an agent read and wrote.
- Xes.InstanceHistoryToXes: a timestamp that is not a date throws; the timestamps here are texts already. Sequence numbers are printed in full, as they are below 10^21.
- HistoryExport.Export: the cursor travels as a number, not as its decimal text, and the check of permissions is not part of this model.
- HistoryExport.ExportXes: how an instant is written in ISO form; it is any injective function.
- Polling.EverySleepOnce: real time; a timer may go off at any moment while it is set.
- Percentile.Monotone: floating-point rounding.
- React rendering, the console's screens, role tables, metrics, configuration, and the execution engine behind the runtime service.
