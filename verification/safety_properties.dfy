/** What the code-safety gate promises, stated over its specification
    `SafetyVerdict`: the accept and reject conditions and which of them
    takes precedence. */
module SafetyProperties {
  import opened Common
  import opened PyStr
  import opened PySyntax
  import opened SafetyGate

  /** The messages of the denylist walk. */
  const DenylistMessages := [ImportMessage, CallMessage, FileMethodMessage]

  /** The walk finds a refused node exactly when the tree holds one. */
  lemma WalkFindsViolation(tree: Module)
    ensures FirstViolation(WalkModule(tree)).None? <==> DenylistClean(tree)
  {
    var visited := WalkModule(tree);
    if FirstViolation(visited).None? {
      forall x | InTree(x, tree) ensures Classify(x).None? {
        WalkReachesExactlyTheTree(tree, x);
        var i :| 0 <= i < |visited| && visited[i] == x;
      }
    } else {
      var i :| 0 <= i < |visited| && Classify(visited[i]) == FirstViolation(visited);
      WalkReachesExactlyTheTree(tree, visited[i]);
    }
  }

  /** Whatever the rest of the text, a refused node anywhere in the tree makes
      the verdict a rejection with one of the denylist messages: the walk runs
      before the name and signature checks and wins over them. */
  lemma DenylistWins(code: string, tree: Module, x: Node)
    requires InTree(x, tree) && Classify(x).Some?
    ensures !SafetyVerdict(code, Parsed(tree)).safe
    ensures SafetyVerdict(code, Parsed(tree)).message in DenylistMessages
  {
    WalkFindsViolation(tree);
  }

  /** An `import` or `from ... import` anywhere in the tree is rejected. */
  lemma ImportRejected(code: string, tree: Module, x: Node)
    requires InTree(x, tree) && (x.Import? || x.ImportFrom?)
    ensures !SafetyVerdict(code, Parsed(tree)).safe
  {
    DenylistWins(code, tree, x);
  }

  /** A call to the bare name `open`, `eval` or `exec` anywhere in the tree is
      rejected, whatever its arguments. */
  lemma DangerousCallRejected(code: string, tree: Module, id: string, args: seq<Node>)
    requires InTree(Call(Name(id), args), tree) && id in DangerousNames
    ensures !SafetyVerdict(code, Parsed(tree)).safe
  {
    DenylistWins(code, tree, Call(Name(id), args));
  }

  /** A call through an attribute named `read`, `write` or `delete` is rejected
      whatever the receiver expression is: the test is purely syntactic. */
  lemma FileMethodCallRejected(code: string, tree: Module, receiver: Node, attr: string, args: seq<Node>)
    requires InTree(Call(Attribute(receiver, attr), args), tree) && attr in FileMethods
    ensures !SafetyVerdict(code, Parsed(tree)).safe
  {
    DenylistWins(code, tree, Call(Attribute(receiver, attr), args));
  }

  /** When every refused node of the tree is refused for the same reason, the
      message is that reason's (for instance, imports without any refused call
      give "Import statements are not allowed"). */
  lemma SingleViolationKindMessage(code: string, tree: Module, x: Node)
    requires InTree(x, tree) && Classify(x).Some?
    requires forall y :: InTree(y, tree) && Classify(y).Some? ==> Classify(y) == Classify(x)
    ensures SafetyVerdict(code, Parsed(tree)) == Verdict(false, ViolationMessage(Classify(x).value))
  {
    WalkFindsViolation(tree);
    var visited := WalkModule(tree);
    var i :| 0 <= i < |visited| && Classify(visited[i]) == FirstViolation(visited);
    WalkReachesExactlyTheTree(tree, visited[i]);
  }

  /** No rejection message is the acceptance message. */
  lemma RejectionMessagesDiffer(k: Violation, detail: string)
    ensures ViolationMessage(k) != SafeMessage
    ensures ValidationPrefix + detail != SafeMessage
    ensures SyntaxMessage != SafeMessage
  {
    assert |SafeMessage| == 12;
    assert |ValidationPrefix + detail| >= 18;
  }

  /** Once the walk is clean, stages two to four accept exactly when the text
      with leading whitespace removed starts with `def process` (a prefix test
      only), the first top-level statement is a function definition, and its
      positional parameters are exactly `parameters`. */
  lemma ShapeVerdictCharacterization(code: string, tree: Module)
    ensures ShapeVerdict(code, tree).safe <==>
      && EntryPrefix <= LStrip(code)
      && tree.body != []
      && tree.body[0].FunctionDef?
      && tree.body[0].params == ["parameters"]
    ensures ShapeVerdict(code, tree).safe <==> ShapeVerdict(code, tree).message == SafeMessage
  {
    EntryPrefixOnLStrip(code);
    RejectionMessagesDiffer(ImportNode, EmptyBodyError);
  }

  /** The name test on the stripped text's first line is a prefix test on the
      text with leading whitespace removed. */
  lemma EntryPrefixOnLStrip(code: string)
    ensures EntryPrefix <= FirstLine(Strip(code)) <==> EntryPrefix <= LStrip(code)
  {
    assert '\n' !in EntryPrefix;
    assert !IsSpace(EntryPrefix[|EntryPrefix| - 1]);
    StrippedFirstLinePrefix(code, EntryPrefix);
  }

  /** After a clean walk the name test comes first: whatever the tree, a text
      whose first line does not start with `def process` is refused with the
      name message. */
  lemma NameStageRejects(code: string, tree: Module)
    requires DenylistClean(tree)
    requires !(EntryPrefix <= LStrip(code))
    ensures SafetyVerdict(code, Parsed(tree)) == Verdict(false, NameMessage)
  {
    WalkFindsViolation(tree);
    EntryPrefixOnLStrip(code);
  }

  /** Next, a module without statements makes `body[0]` raise `IndexError`,
      which the gate reports as a validation error. */
  lemma EmptyBodyStageRejects(code: string, tree: Module)
    requires DenylistClean(tree)
    requires EntryPrefix <= LStrip(code)
    requires tree.body == []
    ensures SafetyVerdict(code, Parsed(tree)) == Verdict(false, ValidationPrefix + EmptyBodyError)
  {
    WalkFindsViolation(tree);
    EntryPrefixOnLStrip(code);
  }

  /** Next, a first statement that is not a function definition is refused
      with the not-a-function message. */
  lemma NotFunctionStageRejects(code: string, tree: Module)
    requires DenylistClean(tree)
    requires EntryPrefix <= LStrip(code)
    requires tree.body != [] && !tree.body[0].FunctionDef?
    ensures SafetyVerdict(code, Parsed(tree)) == Verdict(false, NotFunctionMessage)
  {
    WalkFindsViolation(tree);
    EntryPrefixOnLStrip(code);
  }

  /** Last, a function whose positional parameters are not exactly
      `parameters` is refused with the signature message. */
  lemma SignatureStageRejects(code: string, tree: Module)
    requires DenylistClean(tree)
    requires EntryPrefix <= LStrip(code)
    requires tree.body != [] && tree.body[0].FunctionDef?
    requires tree.body[0].params != ["parameters"]
    ensures SafetyVerdict(code, Parsed(tree)) == Verdict(false, SignatureMessage)
  {
    WalkFindsViolation(tree);
    EntryPrefixOnLStrip(code);
  }

  /** The gate accepts exactly when the text parses, no node of the tree is
      refused, the text with leading whitespace removed starts with
      `def process`, the first top-level statement is a function definition,
      and its positional parameters are exactly `parameters`; it then says
      "Code is safe", and every rejection says something else. */
  lemma AcceptanceCharacterization(code: string, parsed: ParseOutcome)
    ensures SafetyVerdict(code, parsed).safe <==>
      && parsed.Parsed?
      && DenylistClean(parsed.tree)
      && EntryPrefix <= LStrip(code)
      && parsed.tree.body != []
      && parsed.tree.body[0].FunctionDef?
      && parsed.tree.body[0].params == ["parameters"]
    ensures SafetyVerdict(code, parsed).safe <==> SafetyVerdict(code, parsed).message == SafeMessage
  {
    match parsed
    case SyntaxError =>
      RejectionMessagesDiffer(ImportNode, []);
    case ParserFault(e) =>
      RejectionMessagesDiffer(ImportNode, e);
    case Parsed(tree) =>
      WalkFindsViolation(tree);
      ShapeVerdictCharacterization(code, tree);
      var found := FirstViolation(WalkModule(tree));
      if found.Some? {
        RejectionMessagesDiffer(found.value, []);
      }
  }

  /** A text the parser refuses is never accepted: a syntax error gives
      "Invalid Python syntax", any other parser exception a
      "Validation error: ..." message carrying its text. */
  lemma ParseFailureRejected(code: string, parsed: ParseOutcome)
    requires !parsed.Parsed?
    ensures !SafetyVerdict(code, parsed).safe
    ensures parsed.SyntaxError? ==> SafetyVerdict(code, parsed).message == SyntaxMessage
    ensures parsed.ParserFault? ==>
      SafetyVerdict(code, parsed).message == ValidationPrefix + parsed.message
  {
  }

  /** One step of the walk: visit the head of the queue, then walk the rest
      of the queue followed by the head's children. */
  lemma WalkStep(queue: seq<Node>)
    requires queue != []
    ensures Walk(queue) == [queue[0]] + Walk(queue[1..] + Children(queue[0]))
  {
  }

  /** A node the denylist lets through does not change the first violation. */
  lemma FirstViolationSkip(visited: seq<Node>)
    requires visited != [] && Classify(visited[0]).None?
    ensures FirstViolation(visited) == FirstViolation(visited[1..])
  {
  }

  /** The walk of the example tree below meets the `open` call before the import. */
  lemma WalkOrderExampleWalk(assign: Node, def: Node, openCall: Node)
    requires openCall == Call(Name("open"), [Other([])])
    requires assign == Other([Name("data"), openCall])
    requires def == FunctionDef("process", ["parameters"], [Other([Other([])]), Import])
    ensures FirstViolation(Walk([assign, def])) == Some(DangerousCall)
  {
    var q0 := [assign, def];
    var q1 := [def, Name("data"), openCall];
    var q2 := [Name("data"), openCall, Other([Other([])]), Import];
    var q3 := [openCall, Other([Other([])]), Import];
    assert q0[1..] + Children(assign) == q1;
    assert q1[1..] + Children(def) == q2;
    assert q2[1..] + Children(Name("data")) == q3;
    WalkStep(q0);
    WalkStep(q1);
    WalkStep(q2);
    WalkStep(q3);
    FirstViolationSkip(Walk(q0));
    FirstViolationSkip(Walk(q1));
    FirstViolationSkip(Walk(q2));
    assert Walk(q0)[1..] == Walk(q1);
    assert Walk(q1)[1..] == Walk(q2);
    assert Walk(q2)[1..] == Walk(q3);
  }

  /** When a tree holds refused nodes of different kinds, the message is that
      of the one the breadth-first walk meets first, so an import does not
      always give the import message. For the text

          data = open('data.txt')
          def process(parameters):
              import os

      the call sits at depth two under the assignment, the import at depth two
      under the function, and the assignment comes first: whatever the exact
      text, the verdict is the call message although the tree holds an import. */
  lemma WalkOrderDecidesMessage(code: string, assign: Node, def: Node, openCall: Node)
    requires openCall == Call(Name("open"), [Other([])])
    requires assign == Other([Name("data"), openCall])
    requires def == FunctionDef("process", ["parameters"], [Other([Other([])]), Import])
    ensures InTree(Import, Module([assign, def]))
    ensures SafetyVerdict(code, Parsed(Module([assign, def]))) == Verdict(false, CallMessage)
  {
    WalkOrderExampleWalk(assign, def, openCall);
    ExampleImportInTree(assign, def, openCall);
  }

  /** The import of the example tree lies inside the function's body. */
  lemma ExampleImportInTree(assign: Node, def: Node, openCall: Node)
    requires openCall == Call(Name("open"), [Other([])])
    requires assign == Other([Name("data"), openCall])
    requires def == FunctionDef("process", ["parameters"], [Other([Other([])]), Import])
    ensures InTree(Import, Module([assign, def]))
  {
    assert NodesOf([Import]) == [Import] + NodesOf([]);
    assert NodesOf([Other([Other([])]), Import]) == Nodes(Other([Other([])])) + NodesOf([Import]);
    assert NodesOf([assign, def]) == Nodes(assign) + NodesOf([def]);
    assert NodesOf([def]) == Nodes(def) + NodesOf([]);
  }

  /** The name test is a prefix test on the first line and the function's own
      name is never looked at: a text starting `def processor`, defining a
      function `processor(parameters)`, is accepted. */
  lemma PrefixAdmitsLongerName(code: string, argsNode: Node, ret: Node, def: Node)
    requires "def processor" <= code
    requires argsNode == Other([Other([])]) && ret == Other([Name("parameters")])
    requires def == FunctionDef("processor", ["parameters"], [argsNode, ret])
    ensures SafetyVerdict(code, Parsed(Module([def]))).safe
  {
    ExampleDefClean(argsNode, ret, def);
    WalkFindsViolation(Module([def]));
    assert code[0] == 'd';
    assert LStrip(code) == code;
    assert EntryPrefix <= code;
    EntryPrefixOnLStrip(code);
  }

  /** No node of the `processor` example is refused. */
  lemma ExampleDefClean(argsNode: Node, ret: Node, def: Node)
    requires argsNode == Other([Other([])]) && ret == Other([Name("parameters")])
    requires def == FunctionDef("processor", ["parameters"], [argsNode, ret])
    ensures DenylistClean(Module([def]))
  {
    var all := [def, argsNode, Other([]), ret, Name("parameters")];
    assert NodesOf([def]) == all by {
      assert NodesOf([Name("parameters")]) == [Name("parameters")];
      assert NodesOf([ret]) == [ret, Name("parameters")];
      assert NodesOf([Other([])]) == [Other([])];
      assert Nodes(argsNode) == [argsNode, Other([])];
      assert NodesOf([argsNode, ret]) == Nodes(argsNode) + NodesOf([ret]);
      assert Nodes(def) == [def] + NodesOf([argsNode, ret]);
    }
    forall x | x in all ensures Classify(x).None? {
    }
  }
}
