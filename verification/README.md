# Function-registry safety gate: a Dafny model

This project models the core of a small Flask data store. Users register a
"function", which is a Python source text, and the store keeps it under a
name for later execution. Before anything is stored, the code-safety gate
`is_safe_code` decides whether the text is acceptable. It works in four
stages, in this order:

1. A denylist walk over every node of the syntax tree, in `ast.walk`'s
   breadth-first order. It refuses any `import`/`from ... import`, any call to
   the bare names `open`, `eval` or `exec`, and any call through an attribute
   named `read`, `write` or `delete`, whatever the receiver is.
2. The stripped text's first line must start with `def process`.
3. The first top-level statement must be a function definition.
4. That function's positional parameter list must be exactly `parameters`.

Around the gate sits a registry keyed by name. Register validates the code,
then refuses any name already present, then adds an active row. Delete is a
soft delete that only clears the active flag. Execute finds active rows only.
A second, independent validator checks an item's title.

Modules:

- `Common` (common.dfy): an optional value and JSON values.
- `PyStr` (pystr.dfy): the Python `str` operations the gate uses: `strip`,
  `split('\n')`, `startswith`. It proves that the first-line test is a
  prefix test on the text with its leading whitespace removed.
- `PySyntax` (pysyntax.dfy): the abstract syntax tree and `ast.walk`. It
  proves that the walk visits every node of the tree exactly once.
- `SafetyGate` (safety.dfy): the verdict as a function, `SafetyVerdict`, and
  `is_safe_code` as a method, `IsSafeCode`, whose breadth-first loop is
  proved to compute it.
- `SafetyProperties` (safety_properties.dfy): the accept and reject
  conditions and which stage takes precedence.
- `FunctionRegistry` (registry.dfy): the table of function definitions as a
  class over a map, with register, delete, execute and list.
- `ItemValidation` (validators.dfy): `validate_item_input`.

Where the behaviour the system is meant to have and its code differ, the
model follows the code:

- The signature test reads only the positional list `args.args`. So
  `def process(parameters, *rest, **kw)` and keyword-only extras pass, and so
  does `def process(a, /, parameters)`, although the intent is a function
  with exactly one declared parameter.
- The name-uniqueness lookup does not filter on the active flag. A deleted
  name can therefore never be registered again, although names are meant
  to be unique only among active definitions.
- Rejections carry the code's message strings; there are no
  machine-readable rejection codes.
- Function versions, an execution ledger, parameter schemas, timeouts and
  memory limits are intended but have no code behind them (see "Left out").

The gate's message is that of the first refused node in breadth-first walk
order. A tree holding an import can therefore be rejected with the call
message when an `open(...)` call lies shallower in the tree
(`WalkOrderDecidesMessage`). When all refused nodes are imports, the message
is the import message (`SingleViolationKindMessage`).

## Model

| member | source | states |
|---|---|---|
| `PyStr.LeadingSpaces` | api/function_routes.py:27 | the count of characters `strip` removes at the front: all of them are whitespace (Python's `isspace` set) and the character after them, if any, is not |
| `PyStr.TrailingStart` | api/function_routes.py:27 | where the whitespace `strip` removes at the back begins: every character from there on is whitespace and the one before it, if any, is not |
| `PyStr.Strip` | api/function_routes.py:27 | `code.strip()` is no longer than the text, neither starts nor ends with whitespace, and leaves a text that already has no whitespace at either end unchanged |
| `PyStr.StripKeepsMiddle` | api/function_routes.py:27 | `code.strip()` is exactly the stretch of the text that starts right after its leading whitespace, and everything after that stretch is whitespace: the middle is kept unchanged |
| `PyStr.Split` | api/function_routes.py:27 | `split('\n')` returns at least one piece, so `lines[0]` always exists, and no piece contains the separator |
| `PyStr.JoinSplit` | api/function_routes.py:27 | joining the pieces of a split with the separator gives back the original text |
| `PyStr.FirstLine` | api/function_routes.py:27-28 | `lines[0]` holds no line break |
| `PyStr.FirstLineIsLeadingSegment` | api/function_routes.py:27-28 | `lines[0]` is the longest prefix of the text without a line break |
| `PyStr.PrefixOfFirstLine` | api/function_routes.py:28-29 | a prefix test on the first line equals a prefix test on the whole text, for a prefix without line breaks |
| `PyStr.PrefixOfRStrip` | api/function_routes.py:27-29 | trailing whitespace removal does not affect a prefix test whose prefix ends in non-whitespace |
| `PyStr.StrippedFirstLinePrefix` | api/function_routes.py:27-29 | `code.strip().split('\n')[0].startswith(p)` holds exactly when `code.lstrip().startswith(p)`, for prefixes like `def process` |
| `PySyntax.NodesOfAppend` | api/function_routes.py:15 | the nodes of a concatenated forest are those of each part, in order |
| `PySyntax.NodesOfChildren` | api/function_routes.py:15 | the nodes below a node are exactly the nodes of its children's subtrees |
| `PySyntax.WalkMeasure` | api/function_routes.py:15 | one step of `ast.walk` (pop the head, append its children) leaves exactly one pending node fewer, so the walk ends |
| `PySyntax.Walk` | api/function_routes.py:15 | `ast.walk` yields as many nodes as the trees in its queue hold |
| `PySyntax.WalkVisitsEachNodeOnce` | api/function_routes.py:15 | `ast.walk`'s breadth-first traversal visits every node of the trees in its queue exactly once (same multiset as the pre-order node list) |
| `PySyntax.WalkReachesExactlyTheTree` | api/function_routes.py:15 | a node is visited by the walk if and only if it lies in the tree |
| `SafetyGate.Classify` | api/function_routes.py:17-24 | the import verdict is given exactly to `Import`/`ImportFrom` nodes; only imports and calls are ever refused; a file-method refusal is always a call through an attribute |
| `SafetyGate.FirstViolation` | api/function_routes.py:15-24 | the result is none exactly when no visited node is refused; otherwise it is the kind of the earliest refused node |
| `SafetyGate.ShapeVerdict` | api/function_routes.py:27-41 | stages two to four accept only when the stripped text's first line starts with `def process` and the first statement is a function definition whose positional parameters are exactly `parameters`, and acceptance carries "Code is safe"; the rejection message and precedence of each stage are in `SafetyProperties.NameStageRejects`, `EmptyBodyStageRejects`, `NotFunctionStageRejects` and `SignatureStageRejects` |
| `SafetyGate.SafetyVerdict` | api/function_routes.py:13-45 | the gate accepts only a text that parses, and acceptance always carries "Code is safe"; `SafetyProperties.AcceptanceCharacterization` gives the full condition |
| `SafetyGate.IsSafeCode` | api/function_routes.py:9-45 | the method, with its queue-driven walk and early returns, returns exactly the verdict `SafetyVerdict` |
| `SafetyProperties.WalkFindsViolation` | api/function_routes.py:15-24 | the walk finds a refused node exactly when some node of the tree is refused |
| `SafetyProperties.DenylistWins` | api/function_routes.py:15-30 | any refused node anywhere in the tree forces a rejection with a denylist message, whatever the name line and signature are |
| `SafetyProperties.ImportRejected` | api/function_routes.py:17-18 | an `Import` or `ImportFrom` node anywhere in the tree forces rejection |
| `SafetyProperties.DangerousCallRejected` | api/function_routes.py:20-22 | a call to the bare name `open`, `eval` or `exec` anywhere in the tree forces rejection |
| `SafetyProperties.FileMethodCallRejected` | api/function_routes.py:23-24 | a call through attribute `read`, `write` or `delete` forces rejection, for every receiver expression |
| `SafetyProperties.SingleViolationKindMessage` | api/function_routes.py:15-24 | when all refused nodes share one kind, the verdict is a rejection with that kind's message (imports alone give "Import statements are not allowed") |
| `SafetyProperties.WalkOrderDecidesMessage` | api/function_routes.py:15-22 | a tree with an import under a function and an `open` call under an earlier assignment is rejected with the call message: the first refused node in walk order decides |
| `SafetyProperties.RejectionMessagesDiffer` | api/function_routes.py:18-45 | no rejection message equals "Code is safe" |
| `SafetyProperties.ShapeVerdictCharacterization` | api/function_routes.py:27-41 | after a clean walk, acceptance holds exactly when the left-stripped text starts with `def process`, the first statement is a function definition and its positional parameters are exactly `parameters` |
| `SafetyProperties.EntryPrefixOnLStrip` | api/function_routes.py:27-29 | the `def process` test on the stripped text's first line holds exactly when the text with leading whitespace removed starts with `def process` |
| `SafetyProperties.NameStageRejects` | api/function_routes.py:27-30 | after a clean walk, a text whose first line does not start with `def process` is refused with "Function must be named 'process'", whatever the tree |
| `SafetyProperties.EmptyBodyStageRejects` | api/function_routes.py:33-45 | after a clean walk and a passing name test, an empty module is refused with "Validation error: list index out of range" |
| `SafetyProperties.NotFunctionStageRejects` | api/function_routes.py:33-35 | after the name test passes, a first statement that is not a function definition is refused with "Code must define a function" |
| `SafetyProperties.SignatureStageRejects` | api/function_routes.py:37-39 | after the earlier stages pass, positional parameters other than exactly `parameters` are refused with "Function must accept exactly one argument named 'parameters'" |
| `SafetyProperties.AcceptanceCharacterization` | api/function_routes.py:13-45 | the gate accepts if and only if the text parses, the tree is denylist-clean, the name prefix holds, the first statement is a function definition, and its positional parameters are exactly `parameters`; accepted exactly when the message is "Code is safe" |
| `SafetyProperties.ParseFailureRejected` | api/function_routes.py:42-45 | a syntax error gives a rejection with "Invalid Python syntax"; any other parser exception gives "Validation error: " followed by its text |
| `SafetyProperties.PrefixAdmitsLongerName` | api/function_routes.py:29-41 | a text starting `def processor`, defining `processor(parameters)`, is accepted: the name test is a prefix test only |
| `FunctionRegistry.FunctionTable.Register` | api/function_routes.py:59-82 | a missing code key, rejected code, missing name key or existing name (active or not) leaves the table unchanged, with the matching outcome (an existing name gives "Function name already exists"); otherwise exactly one row is added, active, with description `''` and parameters `{}` by default; every stored row's code passes the gate |
| `FunctionRegistry.FunctionTable.Delete` | api/function_routes.py:89-94 | an unknown name gives not-found and changes nothing; a known name keeps its row and only its active flag becomes false |
| `FunctionRegistry.FunctionTable.Execute` | api/function_routes.py:101-123 | a name without an active row gives not-found; otherwise the response is `Respond` applied to the stored code's run with the request's `parameters` (default `{}`) |
| `FunctionRegistry.Respond` | api/function_routes.py:108-123 | a JSON-encodable result is returned as the result; an `Exception` raised by the code, or a missing `process`, gives "Function execution failed: ..."; an unencodable result gives the framework's generic 500; a `SystemExit`-like exception escapes the handler with no response of its own |
| `FunctionRegistry.FunctionTable.ListActive` | api/function_routes.py:52-54 | the listing holds exactly the rows that execute can find |
| `FunctionRegistry.DeletedStaysUnavailable` | api/function_routes.py:69-103 | after deleting a stored name, executing it gives not-found and registering it again is refused, while its row is kept |
| `ItemValidation.ValidateItemInput` | utils/validators.py:3-9 | every abort is HTTP 400 with either the required or the too-long message; the `TypeError` case arises only for a present, truthy title without a length; acceptance needs a present title with a length |
| `ItemValidation.MissingTitleRequired` | utils/validators.py:5-6 | a missing or falsy title is refused with "Title is required" |
| `ItemValidation.StringTitleVerdict` | utils/validators.py:5-9 | for a string title, empty gives "Title is required" (presence before length), over 100 characters gives "Title must be less than 100 characters", and lengths 1 to 100 are accepted |
| `ItemValidation.AcceptedIff` | utils/validators.py:3-9 | the input is accepted exactly when the title is present, truthy, has a length, and that length is at most 100 |
| `ItemValidation.OnlyTitleInspected` | utils/validators.py:3-9 | two bodies with the same title entry get the same verdict |
| `ItemValidation.DescriptionIgnored` | utils/validators.py:3-9 | setting the description to any value never changes the verdict |

## Left out

- Python's parser `ast.parse` is an input to the model (`ParseOutcome`: a tree, a `SyntaxError`, or another parser exception with its text). The relation between a text and its tree is not modelled. The gate parses the text twice (api/function_routes.py:14, 33); the model parses once, since both calls give the same result.
- The syntax tree keeps only the node kinds the gate inspects. Every other node is `Other` with its children. A function definition records the names in `args.args` and its child nodes.
- Running the submitted code (`exec` and the call to `process`, api/function_routes.py:110-119) is foreign code. It is the `run` parameter of `Execute`, which reports only what kind of outcome the run had. The text of the framework's HTTP 500 exception, reported when the code defines no `process`, is the constant `InternalErrorText`. The framework's generic 500 body, and what the server does with an exception that leaves the handler, are not modelled beyond the `InternalError` and `Propagated` responses.
- Request decoding and HTTP transport are not modelled. Each status code appears only as an outcome constructor. JSON values of the wrong type for `name`, `code` or `description`, and an explicit `null` description, are not modelled.
- The database session, commits and transactions are not modelled. The table is a map from name to row. models.py is not part of this model: it defines only `Item` and `MediaFile`, not the `FunctionDefinition` the routes import.
- FunctionTable.ListActive: does not model the order of the rows the query returns, because the database decides it.
- JSON numbers are all `real`: integers and floating-point values are not told apart.
- Function versioning, the execution ledger, parameter-schema validation, and timeout and memory limits are not modelled. No code implements them.
- Media uploads, expiry and file-system work (api/media_routes.py) are not modelled. The item CRUD handlers (api/routes.py) are modelled only through `validate_item_input`. Framework wiring (api/serializers.py, api/namespaces.py, app.py, migrations.py) is not modelled. None of these hold logic of the core.
