/** The code-safety gate `is_safe_code`: it decides whether a submitted Python
    source text may be stored as a function. Four stages, in this order:
    a denylist walk over every node of the tree, a test that the stripped
    text's first line starts with `def process`, a test that the first
    top-level statement is a function definition, and a test that this
    function takes exactly one positional parameter named `parameters`. */
module SafetyGate {
  import opened Common
  import opened PyStr
  import opened PySyntax

  /** The `(bool, message)` pair the gate returns. */
  datatype Verdict = Verdict(safe: bool, message: string)

  const ImportMessage := "Import statements are not allowed"
  const CallMessage := "File operations and code execution are not allowed"
  const FileMethodMessage := "File operations are not allowed"
  const NameMessage := "Function must be named 'process'"
  const NotFunctionMessage := "Code must define a function"
  const SignatureMessage := "Function must accept exactly one argument named 'parameters'"
  const SafeMessage := "Code is safe"
  const SyntaxMessage := "Invalid Python syntax"
  /** Prefix of the message for any other exception raised inside the gate. */
  const ValidationPrefix := "Validation error: "
  /** The text of the `IndexError` raised by `body[0]` on an empty module. */
  const EmptyBodyError := "list index out of range"
  /** What the first line of the stripped text must start with. */
  const EntryPrefix := "def process"

  /** Names whose bare call is refused. */
  const DangerousNames := ["open", "eval", "exec"]
  /** Attribute names whose call is refused, whatever the receiver. */
  const FileMethods := ["read", "write", "delete"]

  /** The three reasons the denylist walk can reject a node. */
  datatype Violation = ImportNode | DangerousCall | FileMethodCall

  function ViolationMessage(v: Violation): string {
    match v
    case ImportNode => ImportMessage
    case DangerousCall => CallMessage
    case FileMethodCall => FileMethodMessage
  }

  /** The denylist test applied to one node. It looks only at the node's own
      kind and, for a call, at the syntactic form of its callee. */
  function Classify(n: Node): (r: Option<Violation>)
    ensures r == Some(ImportNode) <==> n.Import? || n.ImportFrom?
    ensures r.Some? ==> n.Import? || n.ImportFrom? || n.Call?
    ensures r == Some(FileMethodCall) ==> n.Call? && n.func.Attribute?
  {
    match n
    case Import => Some(ImportNode)
    case ImportFrom => Some(ImportNode)
    case Call(f, _) =>
      if f.Name? && f.id in DangerousNames then Some(DangerousCall)
      else if f.Attribute? && f.attr in FileMethods then Some(FileMethodCall)
      else None
    case _ => None
  }

  /** No node of `visited` before position `i` is refused. */
  predicate CleanBefore(visited: seq<Node>, i: int)
    requires i <= |visited|
  {
    forall j :: 0 <= j < i ==> Classify(visited[j]).None?
  }

  /** The verdict of the first node in `visited` that the denylist refuses:
      none exactly when no node is refused, and otherwise the kind of the
      earliest refused node. */
  function FirstViolation(visited: seq<Node>): (r: Option<Violation>)
    ensures r.None? <==> CleanBefore(visited, |visited|)
    ensures r.Some? ==> exists i :: 0 <= i < |visited| && Classify(visited[i]) == r && CleanBefore(visited, i)
  {
    if visited == [] then None
    else if Classify(visited[0]).Some? then
      assert CleanBefore(visited, 0);
      Classify(visited[0])
    else
      var r := FirstViolation(visited[1..]);
      assert r.None? <==> CleanBefore(visited, |visited|) by {
        if r.None? {
          forall j | 0 <= j < |visited| ensures Classify(visited[j]).None? {
            if j > 0 { assert visited[j] == visited[1..][j - 1]; }
          }
        } else {
          var k :| 0 <= k < |visited[1..]| && Classify(visited[1..][k]) == r;
          assert visited[k + 1] == visited[1..][k];
        }
      }
      assert r.Some? ==> exists i :: 0 <= i < |visited| && Classify(visited[i]) == r && CleanBefore(visited, i) by {
        if r.Some? {
          var k :| 0 <= k < |visited[1..]| && Classify(visited[1..][k]) == r && CleanBefore(visited[1..], k);
          assert visited[k + 1] == visited[1..][k];
          forall j | 0 <= j < k + 1 ensures Classify(visited[j]).None? {
            if j > 0 { assert visited[j] == visited[1..][j - 1]; }
          }
          assert CleanBefore(visited, k + 1);
        }
      }
      r
  }

  /** No node anywhere in the tree is refused by the denylist. */
  ghost predicate DenylistClean(tree: Module) {
    forall x :: InTree(x, tree) ==> Classify(x).None?
  }

  /** Stages two to four, reached once the walk has found nothing: the first
      line of the stripped text, the kind of the first top-level statement,
      and its positional parameters. */
  function ShapeVerdict(code: string, tree: Module): (r: Verdict)
    ensures r.safe ==> r.message == SafeMessage
    ensures r.safe ==> EntryPrefix <= FirstLine(Strip(code))
    ensures r.safe ==> tree.body != [] && tree.body[0].FunctionDef? && tree.body[0].params == ["parameters"]
  {
    if !(EntryPrefix <= FirstLine(Strip(code))) then Verdict(false, NameMessage)
    else if tree.body == [] then Verdict(false, ValidationPrefix + EmptyBodyError)
    else if !tree.body[0].FunctionDef? then Verdict(false, NotFunctionMessage)
    else if |tree.body[0].params| != 1 || tree.body[0].params[0] != "parameters" then
      Verdict(false, SignatureMessage)
    else Verdict(true, SafeMessage)
  }

  /** The verdict of `is_safe_code(code)` when `ast.parse(code)` gives `parsed`. */
  function SafetyVerdict(code: string, parsed: ParseOutcome): (r: Verdict)
    ensures r.safe ==> r.message == SafeMessage && parsed.Parsed?
  {
    match parsed
    case SyntaxError => Verdict(false, SyntaxMessage)
    case ParserFault(e) => Verdict(false, ValidationPrefix + e)
    case Parsed(tree) =>
      var found := FirstViolation(WalkModule(tree));
      if found.Some? then Verdict(false, ViolationMessage(found.value))
      else ShapeVerdict(code, tree)
  }

  /** `is_safe_code`: the walk is `ast.walk`'s breadth-first traversal, run
      with a queue, returning as soon as a node is refused. */
  method IsSafeCode(code: string, parsed: ParseOutcome) returns (v: Verdict)
    ensures v == SafetyVerdict(code, parsed)
  {
    if parsed.SyntaxError? {
      return Verdict(false, SyntaxMessage);
    }
    if parsed.ParserFault? {
      return Verdict(false, ValidationPrefix + parsed.message);
    }
    var tree := parsed.tree;
    var todo := tree.body;
    while todo != []
      invariant FirstViolation(Walk(todo)) == FirstViolation(WalkModule(tree))
      decreases |NodesOf(todo)|
    {
      var node := todo[0];
      assert Walk(todo) == [node] + Walk(todo[1..] + Children(node));
      WalkMeasure(todo);
      todo := todo[1..] + Children(node);
      var kind := Classify(node);
      if kind.Some? {
        return Verdict(false, ViolationMessage(kind.value));
      }
      assert ([node] + Walk(todo))[1..] == Walk(todo);
    }
    var lines := Split(Strip(code), '\n');
    if !(EntryPrefix <= lines[0]) {
      return Verdict(false, NameMessage);
    }
    if tree.body == [] {
      return Verdict(false, ValidationPrefix + EmptyBodyError);
    }
    var funcDef := tree.body[0];
    if !funcDef.FunctionDef? {
      return Verdict(false, NotFunctionMessage);
    }
    if |funcDef.params| != 1 || funcDef.params[0] != "parameters" {
      return Verdict(false, SignatureMessage);
    }
    return Verdict(true, SafeMessage);
  }
}
