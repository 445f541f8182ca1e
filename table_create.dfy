/**
 * The table-provisioning utility: the table it asks for, its error classifier,
 * the wait until the table is active, and the decisions of its `main`.
 */
module TableCreate {
  import opened Strings
  import opened ApiErrors

  const PkName := "gamerID"
  const SkName := "timeStamp"
  const TableName := "gamerDetails"
  /** Documented as having to be at least PartitionWriteReadCap. */
  const GlobalWriteReadCap := 2
  const PartitionWriteReadCap := 2

  // ---------------------------------------------------------------------------
  // The CreateTable request
  // ---------------------------------------------------------------------------

  datatype ScalarAttributeType = S | N | B
  datatype KeyType = Hash | Range
  datatype AttributeDefinition = AttributeDefinition(attributeName: string, attributeType: ScalarAttributeType)
  datatype KeySchemaElement = KeySchemaElement(attributeName: string, keyType: KeyType)
  datatype ProvisionedThroughput = ProvisionedThroughput(readCapacityUnits: int, writeCapacityUnits: int)
  datatype CreateTableInput = CreateTableInput(
    tableName: string,
    attributeDefinitions: seq<AttributeDefinition>,
    keySchema: seq<KeySchemaElement>,
    provisionedThroughput: ProvisionedThroughput)

  /** The request `createTable` sends: the gamer table with its composite string key. */
  function GamerTableInput(): (input: CreateTableInput)
    ensures input.tableName == TableName
    ensures CompositeKeyTable(input, PkName, SkName, S)
  {
    var input := CreateTableInput(
      TableName,
      [AttributeDefinition(PkName, S), AttributeDefinition(SkName, S)],
      [KeySchemaElement(PkName, Hash), KeySchemaElement(SkName, Range)],
      ProvisionedThroughput(PartitionWriteReadCap, GlobalWriteReadCap));
    assert input.attributeDefinitions[0] == AttributeDefinition(PkName, S);
    assert input.attributeDefinitions[1] == AttributeDefinition(SkName, S);
    input
  }

  /** `name` is declared exactly once among the attribute definitions, with type `t`. */
  ghost predicate DeclaredOnce(input: CreateTableInput, name: string, t: ScalarAttributeType) {
    var defs := input.attributeDefinitions;
    (exists i :: 0 <= i < |defs| && defs[i] == AttributeDefinition(name, t))
    && forall i, j :: 0 <= i < j < |defs| ==> defs[i].attributeName != defs[j].attributeName
  }

  /**
   * A composite-key table: a HASH key followed by a RANGE key on two different attributes,
   * each declared, and nothing but key attributes declared.
   */
  ghost predicate CompositeKeyTable(input: CreateTableInput, hash: string, range: string, t: ScalarAttributeType) {
    && input.keySchema == [KeySchemaElement(hash, Hash), KeySchemaElement(range, Range)]
    && hash != range
    && DeclaredOnce(input, hash, t)
    && DeclaredOnce(input, range, t)
    && forall d :: d in input.attributeDefinitions ==> d.attributeName in {hash, range}
  }

  /**
   * The table is keyed by `gamerID` (HASH) and `timeStamp` (RANGE), both declared as strings,
   * with read capacity PartitionWriteReadCap and write capacity GlobalWriteReadCap, which
   * meets the documented constraint that the global figure is at least the partition one.
   */
  lemma GamerTableShape()
    ensures GamerTableInput().tableName == "gamerDetails"
    ensures CompositeKeyTable(GamerTableInput(), "gamerID", "timeStamp", S)
    ensures GamerTableInput().provisionedThroughput == ProvisionedThroughput(PartitionWriteReadCap, GlobalWriteReadCap)
    ensures PartitionWriteReadCap <= GlobalWriteReadCap
  {
  }

  // ---------------------------------------------------------------------------
  // HandleDynamoDBError
  // ---------------------------------------------------------------------------

  const DnsMessage := "dns resolution error. Please check your internet connection or AWS endpoint configuration"

  /** The codes HandleDynamoDBError turns into a new error, each with the prefix it puts before the message. */
  const CreateErrorPrefixes: map<string, string> := map[
    "LimitExceededException" := "limit exceeded: ",
    "InternalServerError" := "internal Server Error: ",
    "ProvisionedThroughputExceededException" := "provisioned throughput exceeded: ",
    "ResourceNotFoundException" := "resource not found: ",
    "ConditionalCheckFailedException" := "conditional check failed: "
  ]

  /** Classifies an error of a table operation; an error it does not replace is passed on as it came in. */
  function HandleDynamoDBError(err: Err): (r: Outcome)
    ensures r.Raw? ==> r.err == err
  {
    match err
    case NoErr => Ok
    case OtherErr(_) => Raw(err)
    case ApiErr(code, message, text) =>
      if code == "ResourceInUseException" then Ok
      else if code == "LimitExceededException" then Wrapped("limit exceeded: ", message)
      else if code == "InternalServerError" then Wrapped("internal Server Error: ", message)
      else if code == "ProvisionedThroughputExceededException" then Wrapped("provisioned throughput exceeded: ", message)
      else if code == "ResourceNotFoundException" then Wrapped("resource not found: ", message)
      else if code == "ConditionalCheckFailedException" then Wrapped("conditional check failed: ", message)
      else if Contains(text, "no such host") then Fixed(DnsMessage)
      else Raw(err)
  }

  /** An API error with code ResourceInUseException, whatever its message, is success. */
  lemma ResourceInUseIsSuccess(message: string, text: string)
    ensures HandleDynamoDBError(ApiErr("ResourceInUseException", message, text)) == Ok
  {
  }

  /** Each of the five listed codes yields a new error whose text is its prefix followed by the API message. */
  lemma KnownCodeIsWrapped(code: string, message: string, text: string)
    requires code in CreateErrorPrefixes
    ensures HandleDynamoDBError(ApiErr(code, message, text)) == Wrapped(CreateErrorPrefixes[code], message)
    ensures AsError(HandleDynamoDBError(ApiErr(code, message, text))) == OtherErr(CreateErrorPrefixes[code] + message)
  {
  }

  /**
   * Any other code: when "no such host" occurs anywhere in the error's full text the result is
   * the fixed DNS message, otherwise the error itself.
   */
  lemma UnknownCodeClassification(code: string, message: string, text: string)
    requires code != "ResourceInUseException" && code !in CreateErrorPrefixes
    ensures (exists i: nat :: OccursAt(text, "no such host", i)) ==>
      HandleDynamoDBError(ApiErr(code, message, text)) == Fixed(DnsMessage)
    ensures (forall i: nat :: !OccursAt(text, "no such host", i)) ==>
      HandleDynamoDBError(ApiErr(code, message, text)) == Raw(ApiErr(code, message, text))
  {
  }

  /** A nil or non-API error comes back unchanged. */
  lemma NonApiErrorUnchanged(err: Err)
    requires !err.ApiErr?
    ensures HandleDynamoDBError(err) == Passthrough(err)
  {
  }

  /**
   * The classifier reports success exactly for nil and for ResourceInUseException:
   * it never turns a non-API error into success.
   */
  lemma CreateClassifierSuccessIff(err: Err)
    ensures HandleDynamoDBError(err).Ok? <==> (err.NoErr? || (err.ApiErr? && err.code == "ResourceInUseException"))
  {
  }

  // ---------------------------------------------------------------------------
  // waitForTableCreation
  // ---------------------------------------------------------------------------

  datatype TableStatus =
    | Creating | Updating | Deleting | Active
    | InaccessibleEncryptionCredentials | Archiving | Archived

  /** What one DescribeTable call returned: the table's status, or a (non-nil) error. */
  datatype Poll = Status(status: TableStatus) | DescribeErr(err: Failure)

  /** A poll that ends the wait. */
  predicate Terminal(p: Poll) {
    p.DescribeErr? || p.status == Active
  }

  /** The wait ends on this sequence of describe results; otherwise the loop would poll forever. */
  ghost predicate EventuallyTerminal(polls: seq<Poll>) {
    exists i :: 0 <= i < |polls| && Terminal(polls[i])
  }

  lemma EventuallyTerminalTail(polls: seq<Poll>)
    requires EventuallyTerminal(polls) && !Terminal(polls[0])
    ensures EventuallyTerminal(polls[1..])
  {
    var i :| 0 <= i < |polls| && Terminal(polls[i]);
    assert polls[1..][i - 1] == polls[i];
  }

  /** The result of the wait, one poll at a time: an error stops it, ACTIVE ends it with nil. */
  function WaitResult(polls: seq<Poll>): (r: Err)
    requires EventuallyTerminal(polls)
    ensures r.NoErr? || exists i :: 0 <= i < |polls| && polls[i] == DescribeErr(r)
    decreases |polls|
  {
    match polls[0]
    case DescribeErr(e) => e
    case Status(s) =>
      if s == Active then NoErr
      else
        EventuallyTerminalTail(polls);
        WaitResult(polls[1..])
  }

  /** Index `k` is the first poll that ends the wait. */
  ghost predicate FirstTerminal(polls: seq<Poll>, k: nat) {
    k < |polls| && Terminal(polls[k]) && forall j :: 0 <= j < k ==> !Terminal(polls[j])
  }

  /** The wait's result is decided by the first terminal poll alone. */
  lemma {:induction false} WaitResultAtFirstTerminal(polls: seq<Poll>, k: nat)
    requires FirstTerminal(polls, k)
    ensures EventuallyTerminal(polls)
    ensures WaitResult(polls) == if polls[k].DescribeErr? then polls[k].err else NoErr
    decreases k
  {
    assert Terminal(polls[k]);
    if k > 0 {
      assert !Terminal(polls[0]);
      assert FirstTerminal(polls[1..], k - 1) by {
        forall j | 0 <= j < k - 1 ensures !Terminal(polls[1..][j]) {
          assert polls[1..][j] == polls[j + 1];
        }
      }
      WaitResultAtFirstTerminal(polls[1..], k - 1);
    }
  }

  /** A terminal sequence has a first terminal poll. */
  lemma FirstTerminalExists(polls: seq<Poll>) returns (k: nat)
    requires EventuallyTerminal(polls)
    ensures FirstTerminal(polls, k)
  {
    var i :| 0 <= i < |polls| && Terminal(polls[i]);
    k := 0;
    while !Terminal(polls[k])
      invariant k <= i
      invariant forall j :: 0 <= j < k ==> !Terminal(polls[j])
      decreases i - k
    {
      k := k + 1;
    }
  }

  /**
   * The wait succeeds exactly when some poll reported ACTIVE and no describe error came before it.
   */
  lemma {:induction false} WaitSucceedsIff(polls: seq<Poll>)
    requires EventuallyTerminal(polls)
    ensures WaitResult(polls).NoErr? <==>
      exists i :: (0 <= i < |polls| && polls[i] == Status(Active)
        && forall j :: 0 <= j < i ==> !polls[j].DescribeErr?)
  {
    var k := FirstTerminalExists(polls);
    WaitResultAtFirstTerminal(polls, k);
    if WaitResult(polls).NoErr? {
      assert polls[k] == Status(Active);
    } else {
      forall i | 0 <= i < |polls| && polls[i] == Status(Active)
        ensures exists j :: 0 <= j < i && polls[j].DescribeErr?
      {
        assert k < i && polls[k].DescribeErr?;
      }
    }
  }

  /**
   * A failed wait returns the first describe error unchanged; every poll before it reported a
   * status other than ACTIVE.
   */
  lemma {:induction false} WaitFailsWithFirstError(polls: seq<Poll>)
    requires EventuallyTerminal(polls)
    requires !WaitResult(polls).NoErr?
    ensures exists i :: (0 <= i < |polls| && polls[i] == DescribeErr(WaitResult(polls))
      && forall j :: 0 <= j < i ==> polls[j].Status? && polls[j].status != Active)
  {
    var k := FirstTerminalExists(polls);
    WaitResultAtFirstTerminal(polls, k);
    assert polls[k] == DescribeErr(WaitResult(polls));
  }

  /**
   * `waitForTableCreation`: polls DescribeTable, stopping at the first error (returned as it is)
   * or at the first ACTIVE status (nil), sleeping between polls. `calls` is the number of
   * DescribeTable calls made; the loop has no timeout, so it only ends on a terminal poll.
   */
  method WaitForTableCreation(polls: seq<Poll>) returns (err: Err, calls: nat)
    requires EventuallyTerminal(polls)
    ensures err == WaitResult(polls)
    ensures 1 <= calls <= |polls| && FirstTerminal(polls, calls - 1)
  {
    var i := 0;
    while true
      invariant 0 <= i < |polls|
      invariant EventuallyTerminal(polls[i..])
      invariant WaitResult(polls[i..]) == WaitResult(polls)
      invariant forall j :: 0 <= j < i ==> !Terminal(polls[j])
      decreases |polls| - i
    {
      match polls[i]
      case DescribeErr(e) =>
        return e, i + 1;
      case Status(s) =>
        if s == Active {
          break;
        }
      // the Go loop waits five seconds here before the next DescribeTable call
      EventuallyTerminalTail(polls[i..]);
      assert polls[i..][1..] == polls[i + 1..];
      i := i + 1;
    }
    return NoErr, i + 1;
  }

  // ---------------------------------------------------------------------------
  // main
  // ---------------------------------------------------------------------------

  const AlreadyExistsText := "Table already exists"

  /**
   * `main` after the configuration is loaded: `createErr` is what CreateTable returned for
   * GamerTableInput() (createTable passes it through unclassified) and `polls` what the
   * DescribeTable calls that follow would return. A create error whose text mentions an
   * existing table ends the process with status 0 without waiting; any other create error is
   * fatal; only a nil create proceeds to the wait, whose error is fatal in turn.
   */
  method CreateTableMain(createErr: Err, polls: seq<Poll>) returns (exit: Exit, calls: nat)
    requires createErr.NoErr? ==> EventuallyTerminal(polls)
    ensures calls > 0 <==> createErr.NoErr?
    ensures !createErr.NoErr? && Contains(ErrorText(createErr), AlreadyExistsText) ==>
      exit == Exit(0, "CreateTable: " + ErrorText(createErr))
    ensures !createErr.NoErr? && !Contains(ErrorText(createErr), AlreadyExistsText) ==>
      exit == Fatal("Failed to create DynamoDB table: " + ErrorText(createErr))
    ensures createErr.NoErr? ==> FirstTerminal(polls, calls - 1)
    ensures createErr.NoErr? && WaitResult(polls).NoErr? ==> exit == Exit(0, "Table created successfully!")
    ensures createErr.NoErr? && !WaitResult(polls).NoErr? ==>
      exit == Fatal("Failed to wait for table creation: " + ErrorText(WaitResult(polls)))
  {
    if !createErr.NoErr? {
      if Contains(ErrorText(createErr), AlreadyExistsText) {
        return Exit(0, "CreateTable: " + ErrorText(createErr)), 0;
      }
      return Fatal("Failed to create DynamoDB table: " + ErrorText(createErr)), 0;
    }
    var err;
    err, calls := WaitForTableCreation(polls);
    if !err.NoErr? {
      return Fatal("Failed to wait for table creation: " + ErrorText(err)), calls;
    }
    return Exit(0, "Table created successfully!"), calls;
  }
}
