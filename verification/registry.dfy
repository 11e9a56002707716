/** The function registry behind the `/functions` routes: a table of stored
    function definitions keyed by name. Registering runs the code-safety gate
    first, then refuses a name already in the table, then adds the row;
    deleting only marks the row inactive; executing resolves active rows
    only and hands the stored code to the Python runtime, which is not
    modelled (`run` stands for it). */
module FunctionRegistry {
  import opened Common
  import opened PySyntax
  import opened SafetyGate

  /** One stored function definition. */
  datatype FunctionRecord = FunctionRecord(code: string, description: string, parameters: Json, isActive: bool)

  /** The JSON body of a create request; a key the client left out is `None`. */
  datatype CreateRequest = CreateRequest(
    name: Option<string>,
    code: Option<string>,
    description: Option<string>,
    parameters: Option<Json>)

  /** How a create request ends. */
  datatype CreateOutcome =
      /** 201: the new row. */
    | Created(record: FunctionRecord)
      /** 400 "Code validation failed: <gate message>". */
    | CodeRejected(message: string)
      /** 400 with `NameTakenMessage`. */
    | NameTaken(message: string)
      /** The body lacks a key read with `data[key]`: a `KeyError`, 500. */
    | MissingKey(key: string)

  /** How a delete request ends: 204 or 404. */
  datatype DeleteOutcome = Deleted | NotFound

  /** What running the stored code does. */
  datatype RunOutcome =
      /** `process` returned a value JSON can encode. */
    | Returned(value: Json)
      /** `process` returned a value JSON cannot encode (a set, bytes, ...). */
    | ReturnedUnencodable
      /** An exception derived from `Exception` was raised, with its text. */
    | Raised(message: string)
      /** A `BaseException` outside `Exception` (`SystemExit`,
          `KeyboardInterrupt`) was raised. */
    | Escaped
      /** The code defines no `process`. */
    | NoProcess

  /** How an execute request ends. */
  datatype ExecuteResponse =
      /** 200 `{'result': value}`. */
    | Result(value: Json)
      /** 404: no active function of that name. */
    | FunctionNotFound
      /** 500 "Function execution failed: <exception text>". */
    | ExecutionFailed(message: string)
      /** The framework's generic 500: encoding the result fails after the
          handler has returned, outside its `try`. */
    | InternalError
      /** No response from the handler: the exception passes `except
          Exception` and leaves the request handling altogether. */
    | Propagated

  const ValidationFailedPrefix := "Code validation failed: "
  const NameTakenMessage := "Function name already exists"
  const ExecutionFailedPrefix := "Function execution failed: "
  /** The text of the framework's HTTP 500 exception. The abort for a missing
      `process` is raised inside the `try` block, so the `except` clause
      catches it and reports this text. */
  const InternalErrorText := "500 Internal Server Error: The server encountered an internal error"
                           + " and was unable to complete your request. Either the server is"
                           + " overloaded or there is an error in the application."

  /** The row `filter_by(name=name, is_active=True).first()` finds. */
  function ActiveEntry(functions: map<string, FunctionRecord>, name: string): Option<FunctionRecord> {
    if name in functions && functions[name].isActive then Some(functions[name]) else None
  }

  /** The response for what running the code did. Only the failures the
      `except Exception` clause catches get the handler's failure message. */
  function Respond(run: RunOutcome): (r: ExecuteResponse)
    ensures r.Result? <==> run.Returned?
    ensures r.Result? ==> r.value == run.value
    ensures r.ExecutionFailed? <==> run.Raised? || run.NoProcess?
    ensures r.ExecutionFailed? ==> ExecutionFailedPrefix <= r.message
    ensures run.Raised? ==> r.message == ExecutionFailedPrefix + run.message
    ensures r.InternalError? <==> run.ReturnedUnencodable?
    ensures r.Propagated? <==> run.Escaped?
  {
    match run
    case Returned(v) => Result(v)
    case ReturnedUnencodable => InternalError
    case Raised(e) => ExecutionFailed(ExecutionFailedPrefix + e)
    case Escaped => Propagated
    case NoProcess => ExecutionFailed(ExecutionFailedPrefix + InternalErrorText)
  }

  /** The function-definition table. `parse` is Python's `ast.parse`, which
      the gate consults. */
  class FunctionTable {
    var functions: map<string, FunctionRecord>
    const parse: string -> ParseOutcome

    /** The gate accepts `code`. */
    predicate Accepts(code: string) {
      SafetyVerdict(code, parse(code)).safe
    }

    /** Every stored row holds code that the gate accepted. */
    ghost predicate Valid()
      reads this
    {
      forall n :: n in functions ==> Accepts(functions[n].code)
    }

    constructor (parse: string -> ParseOutcome)
      ensures Valid() && functions == map[] && this.parse == parse
    {
      functions := map[];
      this.parse := parse;
    }

    /** `FunctionList.post`: validate the code, then check that the name is
        new among all rows, active or not, then add one active row. */
    method Register(req: CreateRequest) returns (outcome: CreateOutcome)
      requires Valid()
      modifies this
      ensures Valid()
      ensures req.code.None? ==> outcome == MissingKey("code")
      ensures req.code.Some? && !Accepts(req.code.value) ==>
        outcome == CodeRejected(ValidationFailedPrefix + SafetyVerdict(req.code.value, parse(req.code.value)).message)
      ensures req.code.Some? && Accepts(req.code.value) && req.name.None? ==> outcome == MissingKey("name")
      ensures outcome == NameTaken(NameTakenMessage) <==>
        req.code.Some? && Accepts(req.code.value) && req.name.Some? && req.name.value in old(functions)
      ensures outcome.Created? <==>
        req.code.Some? && Accepts(req.code.value) && req.name.Some? && req.name.value !in old(functions)
      ensures outcome.Created? ==>
        && outcome.record == FunctionRecord(req.code.value, req.description.GetOr(""),
                                            req.parameters.GetOr(EmptyObject), true)
        && functions == old(functions)[req.name.value := outcome.record]
        && functions.Keys == old(functions).Keys + {req.name.value}
        && |functions| == |old(functions)| + 1
      ensures !outcome.Created? ==> functions == old(functions)
    {
      if req.code.None? {
        return MissingKey("code");
      }
      var code := req.code.value;
      var verdict := IsSafeCode(code, parse(code));
      if !verdict.safe {
        return CodeRejected(ValidationFailedPrefix + verdict.message);
      }
      if req.name.None? {
        return MissingKey("name");
      }
      var name := req.name.value;
      if name in functions {
        return NameTaken(NameTakenMessage);
      }
      var record := FunctionRecord(code, req.description.GetOr(""), req.parameters.GetOr(EmptyObject), true);
      functions := functions[name := record];
      outcome := Created(record);
    }

    /** `FunctionResource.delete`: a soft delete. The row stays; only its
        active flag is cleared. */
    method Delete(name: string) returns (outcome: DeleteOutcome)
      requires Valid()
      modifies this
      ensures Valid()
      ensures outcome == Deleted <==> name in old(functions)
      ensures outcome == Deleted ==>
        functions == old(functions)[name := old(functions)[name].(isActive := false)]
      ensures outcome == NotFound ==> functions == old(functions)
    {
      if name !in functions {
        return NotFound;
      }
      functions := functions[name := functions[name].(isActive := false)];
      outcome := Deleted;
    }

    /** `FunctionExecution.post`: only an active row is found; its code is
        run with the request's `parameters` (default `{}`), and what the run
        does decides the response (`Respond`). */
    method Execute(name: string, parameters: Option<Json>, run: (string, Json) -> RunOutcome)
      returns (response: ExecuteResponse)
      ensures ActiveEntry(functions, name).None? ==> response == FunctionNotFound
      ensures ActiveEntry(functions, name).Some? ==>
        response == Respond(run(functions[name].code, parameters.GetOr(EmptyObject)))
      ensures response == FunctionNotFound ==> name !in functions || !functions[name].isActive
    {
      if name !in functions || !functions[name].isActive {
        return FunctionNotFound;
      }
      var record := functions[name];
      response := Respond(run(record.code, parameters.GetOr(EmptyObject)));
    }

    /** `FunctionList.get`: the active rows, which are exactly the ones
        `Execute` can find. */
    function ListActive(): (listed: map<string, FunctionRecord>)
      reads this
      ensures forall n :: n in listed <==> ActiveEntry(functions, n).Some?
      ensures forall n :: n in listed ==> Some(listed[n]) == ActiveEntry(functions, n)
    {
      map n | n in functions && functions[n].isActive :: functions[n]
    }
  }

  /** Once deleted, a function stays unavailable: executing it reports not
      found, and registering its name again is refused, because the
      uniqueness lookup does not filter on the active flag. The row itself
      is kept. */
  method DeletedStaysUnavailable(table: FunctionTable, name: string, req: CreateRequest,
                                 parameters: Option<Json>, run: (string, Json) -> RunOutcome)
    returns (deleted: DeleteOutcome, executed: ExecuteResponse, again: CreateOutcome)
    requires table.Valid() && name in table.functions
    requires req.name == Some(name)
    modifies table
    ensures deleted == Deleted && executed == FunctionNotFound && !again.Created?
    ensures table.functions.Keys == old(table.functions).Keys
    ensures table.functions[name] == old(table.functions)[name].(isActive := false)
  {
    deleted := table.Delete(name);
    executed := table.Execute(name, parameters, run);
    again := table.Register(req);
  }
}
