# Capper, verified

A Dafny model of the parts of Capper whose correctness is hardest to see from the code: the CapDB driver's
client-side parameter binding and its connection protocol, bottle plans and deployments, the autoscale reconciler,
the billing ledger and its quotas, certificate reuse, the authorization evaluator, agent memory, and two small codecs.
`dafny verify dfyconfig.toml` checks all of it.

Strings hold one byte per character.

## How it is put together

**Parameter binding** (`SqlLexer`, `SqlReading`, `SqlLiteral`, `Substitution`, `Relexing`, `SqlWords`). The network protocol of CapDB has no
bound parameters, so the driver splices literals into the statement text. It has two hand-written scanners for that, which treat
unclosed spans differently. Both are proved against one lexer. The lexer is a function on the remaining text, and a token list
is *canonical* when each token ends where it should given one more byte; that is exactly when printing and lexing it gives it
back. With this the central question gets an exact answer: the output is read back as the intended tokens if and only if no literal
collides with its neighbour, and a statement is safe under *every* argument list if and only if no placeholder stands right
behind a string, a minus sign or another placeholder, or right before a string. A second layer groups tokens into
words, because `N?` with 5 keeps its tokens under the driver's lexer and still makes the word `N5`. Reading back means reading
with the driver's own rules: the server is taken to share them, and backtick identifiers, which SQLite also accepts, are outside them.

**The connection** (`Driver`). Error classification, `ExecContext` and `Close` are methods of a class. The watcher goroutine, the
calls, the open result sets and closing the connection form a step system in which every interleaving is a run.

**Bottles** (`Template`, `Bottle`, `Deployment`, `Requests`, `Prediction`). The template renderer is specified against the regular expression it
uses. `Plan` and `Apply` are the loops of the source; `Apply` is proved equal to a fold over one list of items, which is what the
plan is compared with.

**The rest**: `Autoscale` (a clock in nanoseconds, stored times in whole seconds), `Billing` (launches as runs that interleave),
`Certificates`, `Authz`, `Crn`, `Memory` (an array searched and compacted in place) and `StringList`. `Options`, `Strings`,
`Clock` and `Arithmetic` hold what they share.

Loops nested in a scanner or planner are separate methods here, one per loop.

Methods are proved against specification functions, and every such function is pinned down in turn by a theorem that does not
use its definition: `SqlReading.LexIsTheReading` for the lexer, `Template.PlaceholderIsReplaced` for the renderer, the turns in
`Requests` for apply, `Autoscale.ChangeExactly`, `Authz.AllowedExactly`, `Certificates.CoversExactly`, `Crn.AcceptedExactly`,
`Bottle.ValidExactly` and their neighbours.

## What the code does not do

Where a member is named, it proves the fact, and gives the condition under which the intended property does hold.

- Literals run into their neighbours in `-?`, `'a'?` and `??`, and read as one word with them in `N?`; see `Relexing.SafeExactly`
  and `SqlWords.WordSafeExactly`.
- A query that was prepared and then finds its context done drops its statement handle for good
  (internal/capdbdriver/driver.go:277-279); see `Driver.HandleLostExactly`.
- A watcher's stop function does not recall the watcher: if the context ends before the watcher takes the stop, it can still
  shut down the connection under the next call, or reach for the handle after the connection was closed (driver.go:116 against
  170-172), and only then; see `Driver.LateCancelExactly`.
- `Apply` renders a network's own name but not a service's reference to it (internal/bottle/apply.go:65 and 104), while
  validation compares the raw names; see `Prediction.AttachedExactly` and `Prediction.DanglingNetwork`. A service that names
  no network is launched on the bare prefix; see `Prediction.NoNetworkDangles`.
- `Plan` announces volumes and an image build that `Apply` never carries out; see `Prediction.WholePlanExactly` and
  `Prediction.VolumeIsNeverCreated`.
- The comment on `RenderTemplate` says that unknown keys are left as they are; the code, and the model, drop
  them, so the two agree on a template only where the context knows all its keys; see `Template.UnknownKeysExactly`.
- The time of the last scaling is stored without its fraction of a second, so a cooldown can end up to one second early, and does
  so whenever the change before fell between two seconds; see `Autoscale.FullCooldownExactly`.
- An instance launched through the API is recorded twice (internal/api/handlers_instances.go:346 and
  internal/manager/instance_manager.go:255), once if it fails in between, and launches that overlap are all admitted on the same
  total. So the limit holds only for launches of one unit, one at a time; see `Billing.QuotaHoldsExactly`.
- A launch that records a unit after its instance was deleted leaves it in the ledger, where nothing releases it; see
  `Billing.LostExactly`, `Billing.OrderlyLosesNothing` and `Billing.OrphanIsForever`.
- A wildcard that is only a certificate's common name is matched literally, so coverage is not transitive through it unless it
  is listed too; see `Certificates.TransitiveExactly`.
- List elements with a quote do not survive `marshalStringSlice` although it escapes them; see `StringList.RoundTripExactly`.
- Denying policies do not bind root users and system principals, denying guardrails do; see `Authz.WhoIsBound`.

## Model

| member | source | states |
|---|---|---|
| `SqlLexer.BlockTailIsFirstClose` | internal/capdbdriver/encode.go:91-101 | a block comment ends at the first closing pair, or with the statement |
| `SqlLexer.LexKeepsText` | internal/capdbdriver/encode.go:43-126 | the scanner's tokens spell out the statement, byte for byte, under both identifier rules |
| `SqlLexer.LooksOneAhead` | internal/capdbdriver/encode.go:43-126 | whether a token ends where it does depends on one byte of what follows |
| `SqlLexer.RoundTrip` | internal/capdbdriver/encode.go:43-126 | printing tokens and lexing the print gives them back if and only if each stays apart from the byte after it |
| `SqlLexer.LexIsCanonical` | internal/capdbdriver/encode.go:43-126 | the tokens of every statement stay apart |
| `SqlLexer.QuoteTailByPairs` | internal/capdbdriver/encode.go:46-71 | reading doubled quotes as an escape is reading a span up to each quote in turn |
| `SqlLexer.OnePassCoversEscaped` | internal/capdbdriver/encode.go:62-71 | inside one identifier with doubled quotes, the one-pass branch finds nothing but identifiers |
| `SqlLexer.IdentifierRulesAgree` | internal/capdbdriver/encode.go:62-71 | for every byte of every statement the one-pass double-quote branch and a scanner honouring `""` (SQL-92, section 5.2) agree on what covers it |
| `SqlReading.ReadsAsIs` | internal/capdbdriver/encode.go:43-126 | the lexer's rule for one token, kind by kind, is the rule written out in bytes: where strings, identifiers, brackets and both comments end, and what a placeholder is |
| `SqlReading.LexIsTheReading` | internal/capdbdriver/encode.go:43-126 | a statement's tokens are exactly the one way of cutting it up in which every token obeys the byte rules |
| `SqlLiteral.EncodeLiteral` | internal/capdbdriver/encode.go:131-156 | refuses exactly the unsupported types and strings with a NUL byte |
| `SqlLiteral.EncodeBlob` | internal/capdbdriver/encode.go:167-178 | the literal is `2*len+3` bytes long and hex-decodes to the bytes |
| `SqlLiteral.StringIsOneToken` | internal/capdbdriver/encode.go:46-61 | the single-quote branch started on an encoded string stops exactly at its end, whatever follows except a quote |
| `SqlLiteral.StringReadsBack` | internal/capdbdriver/encode.go:162-164 | un-doubling what the lexer takes as the string gives the string |
| `SqlLiteral.BlobReadsBack` | internal/capdbdriver/encode.go:167-178 | decoding a blob literal gives the bytes |
| `SqlLiteral.IntReadsBack` | internal/capdbdriver/encode.go:135-136 | parsing an integer literal gives the integer |
| `SqlLiteral.EncodersAreInjective` | internal/capdbdriver/encode.go:131-178 | within each type, no two integers, booleans, strings or blobs share a literal (across types true and 1 do) |
| `SqlLiteral.LiteralEnds` | internal/capdbdriver/encode.go:131-178 | a literal lexes to strings and single bytes only, never to a placeholder or comment, and its last token ends with it |
| `SqlLiteral.LiteralHasNoNul` | internal/capdbdriver/encode.go:131-178 | no accepted argument brings a NUL byte into the statement |
| `SqlLiteral.IntegerText` | internal/capdbdriver/encode.go:135-136 | integers are written in decimal without leading zeros, negative ones behind a minus sign |
| `SqlLiteral.PlainText` | internal/capdbdriver/encode.go:133-152 | nil is NULL, true and false are 1 and 0, floats their text, times their text in quotes |
| `SqlLiteral.TextReadsBack` | internal/capdbdriver/encode.go:146-152 | strings and times are read back from their literals |
| `SqlLiteral.BlobText` | internal/capdbdriver/encode.go:167-178 | every byte of a blob is its two hexadecimal digits, the high one first |
| `Substitution.StringEnd` | internal/capdbdriver/encode.go:46-61 | the single-quote branch stops at the end of the string token, closed or not |
| `Substitution.IdentEnd` | internal/capdbdriver/encode.go:62-71 | the double-quote branch stops behind the first double quote, or at the end of the statement, which is where the token ends |
| `Substitution.BracketEnd` | internal/capdbdriver/encode.go:72-81 | the bracket branch stops behind the first closing bracket, or at the end of the statement, which is where the token ends |
| `Substitution.LineEnd` | internal/capdbdriver/encode.go:82-90 | the line comment branch stops before the first line feed, or at the end of the statement, which is where the token ends |
| `Substitution.CommentEnd` | internal/capdbdriver/encode.go:91-105 | the block comment branch stops at the end of the comment token |
| `Substitution.PastIdent` | internal/capdbdriver/encode.go:203-208 | the counter's branch ends with the token, or past the statement when it is unclosed |
| `Substitution.PastBracket` | internal/capdbdriver/encode.go:209-214 | likewise for brackets |
| `Substitution.PastComment` | internal/capdbdriver/encode.go:220-225 | likewise for block comments, which overshoot by up to two |
| `Substitution.Substitute` | internal/capdbdriver/encode.go:33-127 | the scanner yields the statement's tokens with each placeholder replaced in order, and fails with the first error on the way |
| `Substitution.CountPlaceholders` | internal/capdbdriver/encode.go:182-240 | the second scanner counts the placeholder tokens of the same lexer, overshoots included |
| `Substitution.CountIsCardinality` | internal/capdbdriver/encode.go:227-234 | the count is the number of plain placeholder tokens; numbered ones, and those in strings and comments, are not counted |
| `Substitution.FirstErrorDecides` | internal/capdbdriver/encode.go:34-125 | substitution fails with the first error from the left: numbered, too few, not encodable, or at the end too many; a NUL byte comes first |
| `Relexing.SubstituteAccepts` | internal/capdbdriver/encode.go:33-127 | substitution succeeds if and only if there is no NUL byte and no numbered placeholder, every argument is encodable, and there are as many as the second scanner counts |
| `Relexing.SpliceSucceeds` | internal/capdbdriver/encode.go:33-127 | and then the text is the print of the replaced tokens |
| `Relexing.PieceIs` | internal/capdbdriver/encode.go:101-117 | the k-th placeholder gets the k-th argument, every other token stays |
| `Relexing.OutputIsSpelled` | internal/capdbdriver/encode.go:37-126 | the output is those pieces, tokens as they are and arguments as their literals, byte for byte |
| `Relexing.SeamsDecide` | internal/capdbdriver/encode.go:33-127 | replaced tokens stay apart if and only if no argument runs into a neighbour |
| `Relexing.SubstitutionKeepsTokens` | internal/capdbdriver/encode.go:33-127 | re-lexing the output gives the statement's tokens with the k-th placeholder replaced by the tokens of the k-th literal, if and only if none collides |
| `Relexing.SubstitutionIsFinal` | internal/capdbdriver/encode.go:33-127 | without collisions nothing is left to bind, and substituting no arguments again changes nothing |
| `Relexing.SafeExactly` | internal/capdbdriver/encode.go:33-127 | the statements that keep their tokens under all argument lists, exactly |
| `SqlWords.MergesDecide` | internal/capdbdriver/encode.go:33-127 | the words of the replaced tokens are the statement's, placeholders replaced by their literals' words, if and only if no literal merges with a neighbour into a name, number, variable or prefixed string |
| `SqlWords.SubstitutionKeepsWords` | internal/capdbdriver/encode.go:33-127 | the words of the substituted text are the intended ones if and only if no literal collides or merges |
| `SqlWords.WordSafeExactly` | internal/capdbdriver/encode.go:33-127 | a statement keeps its words under all argument lists if and only if no placeholder touches a string, a word or another placeholder, or stands right behind a minus sign |
| `SqlWords.DelimitedIsSafe` | internal/capdbdriver/encode.go:33-127 | where blanks, commas, semicolons, parentheses or comparison signs surround every placeholder, all arguments keep tokens and words, and nothing is left to bind |
| `SqlWords.MinusMakesAComment` | internal/capdbdriver/encode.go:82-116 | `-?` with -1 turns into a comment |
| `SqlWords.QuoteMakesOneString` | internal/capdbdriver/encode.go:46-61 | `'a'?` with the string b turns into one string |
| `SqlWords.NameTakesTheNumber` | internal/capdbdriver/encode.go:106-121 | `N?` with 5 turns into one name |
| `SqlWords.ExponentTakesTheSign` | internal/capdbdriver/encode.go:106-121 | `e?` with -5 merges, as in `1e-5` |
| `SqlWords.NameIsOneWord` | internal/capdbdriver/encode.go:118-121 | letters, digits and the other bytes of names and numbers make one word, however long |
| `SqlWords.OthersStandApart` | internal/capdbdriver/encode.go:118-121 | which two tokens join in a word, written out in bytes |
| `Driver.Conn.Err` | internal/capdbdriver/driver.go:139-165 | BadConn exactly for an answered BUSY on a living connection; a lost one is marked dead and never reported as BadConn |
| `Driver.Conn.ExecContext` | internal/capdbdriver/driver.go:233-260 | a done context hides every other outcome, but a lost connection is marked dead all the same; dead stays dead |
| `Driver.Conn.Close` | internal/capdbdriver/driver.go:167-175 | a closed connection is not valid |
| `Driver.RetryIsSafe` | internal/capdbdriver/driver.go:139-165 | a caller that retries only on BadConn has its statement executed at most once: once after success, never after BadConn |
| `Driver.QueryContext` | internal/capdbdriver/driver.go:269-289 | rows are handed out, with stop function and handle, only when context, arguments and prepare allow; otherwise the watcher is stopped on the spot |
| `Driver.Cursor.Close` | internal/capdbdriver/driver.go:334-344 | gives up what it holds, and holds nothing afterwards |
| `Driver.CloseTwice` | internal/capdbdriver/driver.go:334-344 | closing rows again changes nothing |
| `Driver.RunKeepsInv` | internal/capdbdriver/driver.go:107-344 | every step of every interleaving keeps stop functions and handles linear and watchers honest |
| `Driver.EveryRunIsLinear` | internal/capdbdriver/driver.go:107-344 | in every interleaving, closing the connection included, no stop channel is closed twice, none is forgotten, no handle is finalized twice, and a connection is dead before cancel is called on it |
| `Driver.DeadStaysDead` | internal/capdbdriver/driver.go:97-121 | nothing revives a connection |
| `Driver.CancelledQueryAbandons` | internal/capdbdriver/driver.go:277-279 | a prepared query whose context is done leaves its handle to nobody |
| `Driver.AbandonedIsNeverFinalized` | internal/capdbdriver/driver.go:269-344 | no later step finalizes such a handle |
| `Driver.OnlyCancelledQueriesAbandon` | internal/capdbdriver/driver.go:269-344 | no other step ever loses a handle |
| `Driver.HandleLostExactly` | internal/capdbdriver/driver.go:269-344 | a run loses a handle if and only if one of its queries was prepared and then found its context done |
| `Driver.LateCancel` | internal/capdbdriver/driver.go:107-121 | a run that leaves a watcher about to cancel while a later call is on the connection, after its own call returned and stopped it |
| `Driver.StoppedStaysStopped` | internal/capdbdriver/driver.go:112-119 | a watcher that took the stop branch never cancels |
| `Driver.FiresUnlessStopped` | internal/capdbdriver/driver.go:107-121 | being told to stop, however often, does not keep a watcher from cancelling; only its own stop branch does |
| `Driver.LiveContextIsSafe` | internal/capdbdriver/driver.go:107-121 | a watcher whose context stays alive never cancels |
| `Driver.LateCancelExactly` | internal/capdbdriver/driver.go:107-121 | between calls, some run brings a watcher that has not stopped to cancel while a later call is on the connection, and some run to cancel a closed handle, if and only if its context has ended |
| `Template.MatchLenIsThePattern` | internal/bottle/parser.go:14 | a prefix matches the placeholder pattern if and only if it is the one the scanner finds |
| `Template.NoKeysNoPlaceholder` | internal/bottle/parser.go:46-55 | a template mentions no key if and only if no part of it matches the pattern |
| `Template.RenderFrame` | internal/bottle/parser.go:46-55 | the output depends on the context only at the keys mentioned |
| `Template.SinglePass` | internal/bottle/parser.go:46-55 | one way of cutting a template into literal bytes and placeholders gives its output under every context, so values are never expanded again |
| `Template.PlaceholderIsReplaced` | internal/bottle/parser.go:46-55 | a key in double braces, with blanks around it or not, gives way to its value or to nothing |
| `Template.TextIsCopied` | internal/bottle/parser.go:46-55 | text without an opening brace is copied |
| `Template.UnchangedExactly` | internal/bottle/parser.go:46-55 | a text is its own output under every context if and only if it has no placeholder |
| `Template.RenderLength` | internal/bottle/parser.go:46-55 | the output is as long as the literal bytes and the values looked up |
| `Template.RenderExtendedExactly` | internal/bottle/parser.go:46-55 | adding keys leaves the output alone if and only if none of them that is mentioned has a value |
| `Template.UnknownKeysExactly` | internal/bottle/parser.go:44-55 | leaving unknown placeholders as they are, as the comment says, gives the same output if and only if the context knows every key mentioned |
| `Bottle.ContextBinds` | internal/bottle/parser.go:59-76 | a caller's value overrides the parameter's default, and no other key changes |
| `Bottle.SetParams` | internal/bottle/parser.go:68-74 | entering a map's values under their parameter keys gives one result in whatever order it is walked |
| `Bottle.BuildContext` | internal/bottle/parser.go:59-76 | both passes together give the context `ContextBinds` describes, independent of map order |
| `Bottle.ContextOfBottle` | internal/bottle/parser.go:60-67 | what the context says of the bottle's name, version, display name and image |
| `Bottle.ContextOfParameter` | internal/bottle/parser.go:68-74 | a parameter has the caller's value, or else the declared default, or else nothing |
| `Bottle.ValidExactly` | internal/bottle/validator.go:10-75 | a spec is valid if and only if it has none of nine problems, one for each validation message |
| `Bottle.TypesAreKnown` | internal/bottle/validator.go:77-86 | a parameter type is known if it spells one of the names, in capitals or not |
| `Bottle.Plan` | internal/bottle/planner.go:7-127 | a valid spec's plan lists networks, volumes, secrets, image, groups, load balancers, DNS and warnings in this order; an invalid one has none |
| `Bottle.PlanStarts` | internal/bottle/planner.go:20-57 | the networks, volumes and secrets of a plan, at their places and with their names written out |
| `Bottle.PlanGoesOn` | internal/bottle/planner.go:59-82 | the build and the groups, at their places and with their names written out |
| `Bottle.PlanEnds` | internal/bottle/planner.go:84-109 | the load balancers and DNS records, at their places and with their names written out |
| `Bottle.PlanWarns` | internal/bottle/planner.go:111-124 | a plan has a warning for each of three capabilities that is required, and nothing else |
| `Deployment.RunStops` | internal/bottle/apply.go:63-154 | after a failed callback nothing more is requested or recorded |
| `Deployment.Engine.CreateNetwork` | internal/bottle/apply.go:65-79 | one turn of the network loop makes one request and records one resource, or fails |
| `Deployment.Engine.CreateSecret` | internal/bottle/apply.go:84-97 | likewise for secrets, whose id goes into the context under the rendered name |
| `Deployment.Engine.CreateService` | internal/bottle/apply.go:102-119 | likewise for services, one record for each instance launched |
| `Deployment.Engine.CreateLb` | internal/bottle/apply.go:124-136 | likewise for load balancers |
| `Deployment.Engine.CreateRecord` | internal/bottle/apply.go:141-153 | likewise for DNS records, kept under their host |
| `Deployment.Engine.CreateAll` | internal/bottle/apply.go:63-154 | the five loops are one fold over the spec's items in dependency order, stopping at the first failure |
| `Deployment.Engine.Apply` | internal/bottle/apply.go:48-170 | on success the deployment is running with the outputs and resources of that fold, and they are saved; on any failure the deployment comes back unchanged and nothing is saved |
| `Requests.NetworkTurn` | internal/bottle/apply.go:65-79 | what a network's turn asks for (mode nat by default, no subnet for auto), records and leaves in the context, on success and on failure |
| `Requests.SecretTurn` | internal/bottle/apply.go:84-97 | likewise for a secret, with its value traced to the parameter it is taken from |
| `Requests.GroupTurn` | internal/bottle/apply.go:102-119 | likewise for a group: rendered image, bare network reference, replicas, one resource for each instance |
| `Requests.LbTurn` | internal/bottle/apply.go:124-136 | likewise for a load balancer: mode tcp by default, rendered port |
| `Requests.DnsTurn` | internal/bottle/apply.go:141-153 | likewise for a DNS record: host or else name, rendered target |
| `Requests.RequestStays` | internal/bottle/apply.go:63-154 | the k-th request of a successful apply is the one its turn made |
| `Requests.SecretsCarryTheirValues` | internal/bottle/apply.go:85-91 | in every successful apply a secret taken from a parameter carries the caller's value, or else the default, or else nothing; a generated one what was generated |
| `Requests.ReplicasExactly` | internal/bottle/apply.go:105-110 | the replicas are the number the text stands for, if it is a decimal that fits 64 bits, and otherwise 1 |
| `Requests.ReplicasOfInteger` | internal/bottle/apply.go:105-110 | every 64-bit integer, as it is printed, is read as itself |
| `Requests.OutputsAreRendered` | internal/bottle/apply.go:157-159 | outputs are their templates, rendered with everything the run has entered |
| `Prediction.ContextGrows` | internal/bottle/apply.go:56-154 | what Apply enters never changes an entry of the base context, and has only runtime keys |
| `Prediction.NameForetoldExactly` | internal/bottle/apply.go:63-154 | an item gets its planned name if and only if it is settled: its template mentions no non-empty entry made since, or a host falls back to the same name |
| `Prediction.PlanAnnounces` | internal/bottle/planner.go:20-109 | a plan's creations, volumes aside, are the items' names under the base context, in Apply's order |
| `Prediction.RequestsMade` | internal/bottle/apply.go:63-154 | the k-th request is for the k-th item, under the name its context gives at that moment |
| `Prediction.PlanForetellsExactly` | internal/bottle/planner.go:17-109 | when all callbacks succeed, Apply creates what Plan announced, name for name and in order, if and only if every item is settled when its turn comes |
| `Prediction.PlanForetells` | internal/bottle/planner.go:17-109 | so it does for every spec whose name and host templates mention no runtime key, whatever ids come back |
| `Prediction.OneRunDecides` | internal/bottle/planner.go:17-109 | the plan is right under every environment if and only if, in one run with long ids, no name or host template mentions an entry an earlier item made with a value, host fallbacks aside |
| `Prediction.WholePlanExactly` | internal/bottle/planner.go:17-109 | when all callbacks succeed, Apply carries out everything Plan announced, volumes and build included, if and only if there are no volumes, no build is enabled and every item is settled |
| `Prediction.VolumeIsNeverCreated` | internal/bottle/planner.go:31-40 | a valid bottle whose plan is one volume, of which Apply creates nothing |
| `Prediction.RecordedAsPlanned` | internal/bottle/apply.go:79-152 | the resources recorded of each kind carry the names the base context gives, in order, a group's once for every instance |
| `Prediction.RecordedAreThePlans` | internal/bottle/planner.go:20-109 | the networks, secrets, load balancers and DNS records recorded are, in order, those in Plan's own list |
| `Prediction.AttachedExactly` | internal/bottle/apply.go:104 | a service joins a network that was created if and only if its reference equals a rendered network name |
| `Prediction.PlainNetworksAttach` | internal/bottle/validator.go:43-58 | where network names hold no placeholder, a validated service joins a created network if and only if it names one, or some network has the empty name |
| `Prediction.NoNetworkDangles` | internal/bottle/apply.go:104 | a service that names no network is launched on the bare prefix, created only if some network renders to nothing |
| `Prediction.DanglingNetwork` | internal/bottle/apply.go:104 | a valid bottle whose service joins a network that was never created |
| `Autoscale.Reconciler.CooldownBlocked` | internal/autoscale/reconciler.go:149-176 | blocks exactly inside the direction's cooldown, 60 or 300 seconds by default |
| `Autoscale.Reconciler.UpdateLastScale` | internal/autoscale/store/policies.go:154-161 | stamps one policy with the whole second |
| `Autoscale.Reconciler.RecordDecision` | internal/autoscale/reconciler.go:178-197 | appends one record |
| `Autoscale.Reconciler.Evaluate` | internal/autoscale/reconciler.go:100-147 | one evaluation takes the state to what the step function gives, and logs exactly what it returns, with the evaluator's own count, metric and reason, under the count it found |
| `Autoscale.Reconciler.Reconcile` | internal/autoscale/reconciler.go:70-83 | a pass over the enabled policies is the run of their evaluations, although each policy was read before the pass |
| `Autoscale.RecordTrueExactly` | internal/autoscale/reconciler.go:100-147 | a record starts at the group's count and ends at it after the evaluation if and only if no error and no blocked advice carried another count |
| `Autoscale.EventIsTrue` | internal/autoscale/reconciler.go:100-147 | with sound evaluators every evaluation adds at most one record, and a true one |
| `Autoscale.ChangeExactly` | internal/autoscale/reconciler.go:122-147 | advice of another count is carried out, logged as such and remembered if and only if the group can be set and the direction's seconds have passed; otherwise all stays and the record says blocked |
| `Autoscale.NoChangeExactly` | internal/autoscale/reconciler.go:100-147 | nothing else changes a group, and what is logged then |
| `Autoscale.PassGoesOn` | internal/autoscale/reconciler.go:76-81 | a pass evaluates its policies in the order they are listed |
| `Autoscale.AuditReplays` | internal/autoscale/reconciler.go:70-147 | the records of a group chain from its initial to its final count over every run, several policies, blocked and refused changes included |
| `Autoscale.CooldownHolds` | internal/autoscale/reconciler.go:122-176 | over every run each change comes at least its cooldown after the second of that policy's previous change, or of the scaling stored before the run |
| `Autoscale.AllowedExactly` | internal/autoscale/reconciler.go:149-176 | the check lets through exactly the waits of the cooldown less the fraction of a second that was not stored |
| `Autoscale.FullCooldownExactly` | internal/autoscale/reconciler.go:149-176 | every change that gets through has waited out its cooldown if and only if the change before fell on a whole second |
| `Autoscale.CooldownInRealTime` | internal/autoscale/reconciler.go:149-176 | over a run, less than a second short in real time, and never short by the stored timestamps |
| `Autoscale.CooldownFallsShort` | internal/autoscale/store/policies.go:155 | a change 59 seconds and one nanosecond after another that passes a 60 second cooldown |
| `Autoscale.ScaleOutsTakeTime` | internal/autoscale/reconciler.go:122-176 | n scale-outs span at least n-1 cooldowns |
| `Autoscale.ScaleOutsInWindow` | internal/autoscale/reconciler.go:122-176 | a stretch of t seconds holds at most t/cooldown + 1 scale-outs |
| `Autoscale.ShippedEvaluatorsAreSound` | internal/autoscale/evaluator/target.go:26-170 | target, threshold, queue and schedule evaluators keep the assumptions the run results make |
| `Autoscale.ScaleOutDirection` | internal/autoscale/evaluator/target.go:100-170 | a threshold scale-out lowers the count exactly when the group stands above its maximum |
| `Autoscale.TargetFollowsLoad` | internal/autoscale/evaluator/target.go:56-86 | target tracking advises the fewest replicas that carry the load at the target, within the limits |
| `Autoscale.QueueFollowsDepth` | internal/autoscale/evaluator/queue.go:61-91 | a queue gets the fewest workers with at most the target of jobs each, 50 by default, within the limits |
| `Autoscale.ThresholdSteps` | internal/autoscale/evaluator/target.go:125-158 | thresholds step out at the upper one, in at the lower one, and hold in between |
| `Autoscale.AdviceWithinLimits` | internal/autoscale/evaluator/target.go:162-170 | target, queue and schedule advice keeps within the policy's limits |
| `Billing.Manager.SetQuota` | internal/billing/types.go:102-109 | replaces one scope's limit |
| `Billing.Manager.RecordUsage` | internal/billing/types.go:138-145 | moves one scope's total and one id's balance by the units, and no other |
| `Billing.Manager.ReleaseUsage` | internal/billing/types.go:159-172 | appends one balancing entry when units are outstanding: lowers the total by the id's balance, clears it, and leaves all other balances and scopes alone |
| `Billing.Manager.ReleaseTwice` | internal/billing/types.go:159-172 | a second release adds nothing |
| `Billing.Manager.CheckQuota` | internal/billing/types.go:176-196 | passes without a row, without a limit, on an unreadable table, or with room left |
| `Billing.AdmitsExactly` | internal/billing/types.go:176-196 | a check passes if and only if the count after one more unit is within the limit; no limit, a limit of nothing or less and an unreadable table let everything pass |
| `Billing.TotalIsSumOfBalances` | internal/billing/types.go:138-172 | in every ledger the usage counted is the sum of the outstanding balances |
| `Billing.RunKeepsInv` | internal/billing/types.go:138-196 | every step of every interleaving, failed launches and deletions during launches included, keeps the balances equal to what was recorded and not released |
| `Billing.QuotaBound` | internal/api/handlers_instances.go:253-410 | in every interleaving the total is the units recorded and not released, and stays under the limit and one full set of launches |
| `Billing.QuotaBoundExactly` | internal/api/handlers_instances.go:253-410 | that bound is the best: a bound holds over all runs if and only if it is at least the limit less one plus the units of a full set of launches |
| `Billing.SequentialQuota` | internal/manager/instance_manager.go:99-359 | one unit a launch and no deletion during a launch: the total is the number of instances whose launch is over, and with one launch at a time it never exceeds the limit |
| `Billing.QuotaHoldsExactly` | internal/api/handlers_instances.go:253-346 | the limit holds over all runs if and only if launches come one at a time and none records more than one unit |
| `Billing.LostExactly` | internal/manager/instance_manager.go:252-359 | units are lost on an id if and only if a launch records one when the instance is gone and no deletion of it is still to release |
| `Billing.OrderlyLosesNothing` | internal/manager/instance_manager.go:252-359 | runs that delete no instance during its launch lose nothing, for any costs and with any failures |
| `Billing.OrphanArises` | internal/manager/instance_manager.go:252-359 | an instance deleted during its launch leaves a unit, with nothing alive, in progress or being deleted |
| `Billing.OrphanIsForever` | internal/manager/instance_manager.go:252-359 | no later run releases it |
| `Certificates.Covered` | internal/certmgr/manager.go:370-387 | decides whether a certificate covers a name |
| `Certificates.CertCoversAll` | internal/certmgr/manager.go:369-399 | decides whether it covers every requested name |
| `Certificates.FindReusableCert` | internal/certmgr/manager.go:347-367 | returns the first certificate in use, with more than thirty days to run, that covers the request, and nothing only when there is none |
| `Certificates.WildcardExactly` | internal/certmgr/manager.go:377-385 | a wildcard covers exactly one dot-free, possibly empty, label in front of its suffix (compare section 6.4.3 of RFC 6125) |
| `Certificates.CoversExactly` | internal/certmgr/manager.go:370-388 | the names a certificate covers, exactly: its common name, those it lists, and one dot-free label in front of what follows a listed star |
| `Certificates.UsableExactly` | internal/certmgr/manager.go:353-361 | which certificates may be reused: by status, and with 2592000 seconds to run at least |
| `Certificates.StandsInExactly` | internal/certmgr/manager.go:369-399 | one certificate covers every name another covers if and only if it covers the names on it and lists its wildcards |
| `Certificates.CoverageIsTransitive` | internal/certmgr/manager.go:369-399 | covering all names of a certificate that covers a request is covering the request, if a wildcard common name is listed too |
| `Certificates.TransitiveExactly` | internal/certmgr/manager.go:369-399 | the certificates through which coverage is transitive are exactly those whose common name is no wildcard or is listed too |
| `Certificates.CommonNameWildcardIsLiteral` | internal/certmgr/manager.go:371-373 | one on which it fails |
| `Authz.MatchesAny` | internal/authz/authz.go:221-228 | some pattern matches |
| `Authz.ResourceMatchesAny` | internal/authz/authz.go:230-240 | no patterns, or some pattern matches |
| `Authz.Evaluate` | internal/authz/authz.go:99-165 | the pipeline decides, outcome and reason, by the sets of guardrails and statements alone |
| `Authz.OrderDoesNotMatter` | internal/authz/authz.go:99-165 | reordering guardrails, documents or statements, also across documents, changes neither outcome nor reason |
| `Authz.Monotone` | internal/authz/authz.go:99-165 | more guardrails or denies never allow what was denied; more allows never deny what was allowed |
| `Authz.WhoIsBound` | internal/authz/authz.go:113-165 | a corollary of the decision: denying guardrails bind everyone, denying policies exactly those who are neither root nor system |
| `Authz.NamesIsGlob` | internal/authz/authz.go:243-251 | a pattern matches the value it is, or every value that starts like it up to its last star |
| `Authz.StarIsAnyEnding` | internal/authz/authz.go:243-251 | a last star stands for any ending |
| `Authz.AllowedExactly` | internal/authz/authz.go:99-165 | exactly which requests are allowed, in terms of what guardrails, documents and statements say |
| `Authz.DenialsExactly` | internal/authz/authz.go:115-162 | and the reason the others are given |
| `Authz.NobodyActs` | internal/authz/authz.go:100-113 | the reasons that come before all others |
| `Authz.PrefixDenyBinds` | internal/authz/authz.go:136-152 | a deny on a prefix and a star binds every action that starts with the prefix, whatever is allowed besides |
| `Crn.SplitFirstExactly` | internal/authz/authz.go:194 | splitting off a first part gives it back if and only if it holds no separator |
| `Crn.SplitPrintedExactly` | internal/authz/authz.go:186-194 | printed parts split back if and only if none but the last holds the separator |
| `Crn.PrintedSplit` | internal/authz/authz.go:194 | what splits into the most parts allowed is those parts printed |
| `Crn.Accepted` | internal/authz/authz.go:193-210 | an accepted name is its parsed fields and its seventh part, printed |
| `Crn.BuildParseExactly` | internal/authz/authz.go:186-210 | printing an accepted name's fields gives it back byte for byte if and only if its seventh part holds a slash |
| `Crn.ParseBuildExactly` | internal/authz/authz.go:186-210 | parsing a printed name gives all six fields back if and only if the first four hold no colon and the type no slash |
| `Crn.BuildIs` | internal/authz/authz.go:186-189 | a printed name, spelled out |
| `Crn.ParseIs` | internal/authz/authz.go:193-210 | which fields a spelled-out name is parsed to, with a slash in its rest or without |
| `Crn.AcceptedExactly` | internal/authz/authz.go:193-199 | a name is accepted if and only if it spells four parts without colons and a rest behind crn:capper: |
| `Memory.Store.WriteMemory` | internal/ai/manager.go:328-350 | replaces the entry of the same agent, key and scope, or appends one |
| `Memory.Store.ReadMemory` | internal/ai/manager.go:354-369 | the value of the entry unless it is missing or expired |
| `Memory.Store.PurgeSessionMemory` | internal/ai/manager.go:372-380 | compacts in place: all other entries in their order, the write index never past the read index, nothing touched behind the list |
| `Memory.WrittenFinds` | internal/ai/manager.go:328-350 | a write is a map update on lists without duplicates, and keeps them so |
| `Memory.PurgedFinds` | internal/ai/manager.go:372-380 | a purge removes exactly the agent's session entries from the map |
| `Memory.ListRefinesMap` | internal/ai/manager.go:328-380 | after every sequence of writes and purges the list has each id at most once, with its latest unpurged write |
| `Memory.ReadsLatest` | internal/ai/manager.go:354-369 | a read returns exactly the latest unpurged, unexpired write |
| `Memory.TtlIsKept` | internal/ai/manager.go:333-360 | an entry lasts no longer than its time to live, and less than a second shorter |
| `Memory.WriteThenRead` | internal/ai/manager.go:328-369 | what a write stores, a read gives back until its last whole second is over |
| `Memory.WriteKeepsOthers` | internal/ai/manager.go:342-348 | every other entry keeps its place |
| `Memory.PurgeTakesSessions` | internal/ai/manager.go:372-380 | a purge takes exactly the agent's session entries |
| `Memory.PurgeKeepsOrder` | internal/ai/manager.go:372-380 | and leaves the others in their order |
| `StringList.MarshalStringSlice` | internal/ai/secure.go:320-336 | the loop prints the quoted elements between brackets |
| `StringList.UnmarshalStringSlice` | internal/ai/secure.go:338-353 | the loop keeps the trimmed parts that are not empty |
| `StringList.ElementExactly` | internal/ai/secure.go:330-352 | one element survives quoting and trimming if and only if it holds no quote |
| `StringList.RoundTripExactly` | internal/ai/secure.go:320-353 | a list is read back as it was if and only if all its elements are non-empty and free of quotes and commas |
| `StringList.MarshalledStarts` | internal/ai/secure.go:320-336 | the empty list, and a list of one, as they are printed |
| `StringList.MarshalledGoesOn` | internal/ai/secure.go:325-333 | one more element is parted by a comma |
| `StringList.EscapeIs` | internal/ai/secure.go:331 | each quote gets a backslash in front, and nothing else changes |
| `StringList.BlanksAreSkipped` | internal/ai/secure.go:338-353 | blanks around a list and around its elements are skipped |

## Left out

- Numbers and times as text: floating-point literals and timestamps are any text of the shape the formatter produces; `strconv` and `time` are not part of this model.
- SqlWords.MergesDecide: a sign is joined to an exponent before it, but not to the digits behind it, so `1e+?` is not seen as a merge (`1e-?` is unsafe by `SqlWords.WordSafeExactly` all the same); `SqlWords.DelimitedIsSafe` does not speak of such statements.
- Named and numbered placeholders: the driver refuses the one and ignores the names of the other.
- Error texts: errors are kinds; messages, quota figures and the remaining cooldown in them are not modelled.
- Driver.Conn.ExecContext: the foreign calls are an outcome (ran or not, return code, socket alive); rows affected and insert ids are left out, and so are `Next` and column decoding.
- Driver.RetryIsSafe: what the server promises (an answered BUSY did not run, an OK did) is an assumption.
- The driver's transactions, `Prepare` and the DSN parser, which only pass calls on.
- Non-ASCII blanks in `strings.TrimSpace` and Unicode case folding: strings are bytes.
- Bottle.Plan: the detail texts of actions, and the list of blocking actions on a failed validation, of which only the failure is kept.
- Deployment.Engine.Apply: the project passed to every callback, the texts of errors, and the generated secret, which is any string the environment picks.
- Bottle validation: the host-mount rule, which can never fire, since only the list it reads decides it.
- Retention of resources created by a failed apply: the source saves none.
- Autoscale.Reconciler.Evaluate: the text that says why a change was blocked; the store failing to insert a record; the dry-run flag, which no caller clears.
- Autoscale.AuditReplays: the reconciler is the only writer of replica counts; a pass whose listing of policies fails does nothing and is no event.
- Autoscale.ShippedEvaluatorsAreSound: arithmetic over reals instead of floating point; cron matching is any choice of a scheduled count.
- Billing: 64-bit overflow of sums, the tables as SQL (they are sequences and maps), governance policies and account quotas.
- Billing.QuotaBound: a failing store, on which the source records nothing and goes on; deletion is one step, although its release follows the removal of the row.
- Certificates: issuing, renewing and revoking, and the certificates' own cryptography.
- Authz.Evaluate: JSON parsing of policies, and the cross-account trust step that the comment lists and the code does not have.
- Memory: calls do not overlap, since the source has no lock around the list; times are integers of nanoseconds.
- StringList.UnmarshalStringSlice: the difference between a nil and an empty list.
- Go's slices: class fields hold sequences, except for the memory list, which is an array.
