// Errors of an insert and their two classifications (ch/writer.go).
module InsertErrors {

  // What errors.As and errors.Is can find in an error.
  datatype Cause =
    | Exception(code: int)
    | BlockError(op: string)
    | NetOpError
    | EOF
    | UnexpectedEOF
    | DeadlineExceeded
    | Canceled
    | Message(text: string)

  // An error is the chain that unwrapping it visits, outermost first.
  type Error = seq<Cause>

  const RETRYABLE_CODES: set<int> := {159, 202, 209, 210, 241, 252, 319}

  // ErrInsert wraps with %w: the cause stays reachable.
  function ErrInsert(table: string, err: Error): Error {
    [Message(table)] + err
  }

  predicate Has(err: Error, c: Cause) {
    c in err
  }

  // errors.As(err, &blockErr): the outermost block error decides.
  predicate IsSchemaRelated(err: Error) {
    if err == [] then false
    else if err[0].BlockError? then err[0].op == "Append" || err[0].op == "AppendRow"
    else IsSchemaRelated(err[1..])
  }

  datatype Found = NoException | FoundCode(code: int)

  function FirstException(err: Error): Found {
    if err == [] then NoException
    else if err[0].Exception? then FoundCode(err[0].code)
    else FirstException(err[1..])
  }

  // A server exception anywhere decides by its code, before anything else.
  predicate IsRetryable(err: Error) {
    match FirstException(err)
    case FoundCode(code) => code in RETRYABLE_CODES
    case NoException =>
      Has(err, NetOpError) || Has(err, EOF) || Has(err, UnexpectedEOF) || Has(err, DeadlineExceeded)
  }

  // Wrapping an error for its table changes neither classification.
  lemma WrappingKeepsClass(table: string, err: Error)
    ensures IsRetryable(ErrInsert(table, err)) <==> IsRetryable(err)
    ensures IsSchemaRelated(ErrInsert(table, err)) <==> IsSchemaRelated(err)
  {
    var w := ErrInsert(table, err);
    assert w[1..] == err;
    assert forall c :: c in w <==> c == Message(table) || c in err;
  }

  predicate WithoutException(err: Error) {
    forall i :: 0 <= i < |err| ==> !err[i].Exception?
  }

  lemma {:induction false} FirstExceptionAt(err: Error, i: nat)
    requires i < |err| && err[i].Exception? && WithoutException(err[..i])
    ensures FirstException(err) == FoundCode(err[i].code)
  {
    if i > 0 {
      assert err[..i][0] == err[0] && err[1..][..i - 1] == err[..i][1..];
      FirstExceptionAt(err[1..], i - 1);
    }
  }

  lemma {:induction false} NoExceptionFound(err: Error)
    requires WithoutException(err)
    ensures FirstException(err) == NoException
  {
    if err != [] { NoExceptionFound(err[1..]); }
  }

  // An error is retried by the code of its outermost server exception: timeouts,
  // too many queries, network, memory, too many parts and unknown insert status.
  lemma RetriedByCode(err: Error, i: nat)
    requires i < |err| && err[i].Exception? && WithoutException(err[..i])
    ensures IsRetryable(err) <==> var c := err[i].code;
              c == 159 || c == 202 || c == 209 || c == 210 || c == 241 || c == 252 || c == 319
  {
    FirstExceptionAt(err, i);
  }

  // Without one it is retried exactly when a network error, an end of file or an
  // exceeded deadline is in the chain; being canceled is not enough.
  lemma RetriedByCause(err: Error)
    requires WithoutException(err)
    ensures IsRetryable(err) <==>
              NetOpError in err || EOF in err || UnexpectedEOF in err || DeadlineExceeded in err
    ensures !IsRetryable([Canceled])
  {
    NoExceptionFound(err);
    NoExceptionFound([Canceled]);
  }

  // A schema is refreshed exactly when the outermost block error of the chain is
  // one of appending.
  lemma {:induction false} RefreshedByOp(err: Error, i: nat)
    requires i < |err| && err[i].BlockError? && forall j :: 0 <= j < i ==> !err[j].BlockError?
    ensures IsSchemaRelated(err) <==> err[i].op == "Append" || err[i].op == "AppendRow"
  {
    if i > 0 { RefreshedByOp(err[1..], i - 1); }
  }

  lemma {:induction false} NotRefreshed(err: Error)
    requires forall j :: 0 <= j < |err| ==> !err[j].BlockError?
    ensures !IsSchemaRelated(err)
  {
    if err != [] { NotRefreshed(err[1..]); }
  }
}
