# Gamer-profile backend: decision logic in Dafny

This project models the three pieces of decision logic in a small DynamoDB-backed
"gamer profile" service:

- **Table provisioning** (`tableCreateV2.go`, module `TableCreate`). The `CreateTable` request
  for the `gamerDetails` table is a constant descriptor. The error classifier `HandleDynamoDBError`
  is a function. The polling loop `waitForTableCreation` is a method that runs over an abstract
  sequence of DescribeTable results. The branches of `main` are a method that returns the exit
  status and the final diagnostic line.
- **Table tear-down** (`tableDeleteV2/tableDeleteV2.go`, module `TableDelete`). The classifier
  `handleDeleteError`, `deleteTable` and the success/failure ending of `main` are pure functions.
- **The Lambda handler** (`lamda/main.go`, module `GamerLambda`). `HandleRequest`, `CreateGamer`,
  `GetGamerDetails` and `unmarshalAttributeValue` are methods. They run against `GamerTable`, a
  class whose `items` field is a map from the `gamerID` attribute to the stored item. Each method
  is proved equal to a specification function (`HandleSpec`, `CreateGamerSpec`, `GetGamerSpec`).
  The status-code rules, the "no write on bad input" rule and the create-then-get round trip are
  lemmas about those functions.

Shared pieces:

- `ApiErrors` models a Go `error` as `NoErr` (nil), `ApiErr(code, message, text)` or
  `OtherErr(text)`. `ApiErr` is an error in which `errors.As` finds a `smithy.APIError`; `text` is
  `err.Error()`. It also defines a classifier result (`Ok`, `Wrapped(prefix, message)`,
  `Fixed(text)`, `Raw(err)`) and a process ending `Exit(code, message)`.
- `Strings` models `strings.Contains`, with a proof that it agrees with "occurs at some index". It
  also models `fmt.Sprint` of an `int64` and its inverse.
- `Wrappers` holds `Option`.

Modelling choices:

- Outside inputs are parameters: the generated UUID, the clock, and whether a store call fails.
  They are bundled in `Env`.
- JSON decoding of the body, `attributevalue.UnmarshalMap` and `json.Marshal` are oracles in
  `Codec`.
- The round-trip lemma assumes only that the item decoder inverts `GamerItem`. `ReadGamerItem`
  shows that such a decoder exists.

Behaviour of the code worth knowing:

- `waitForTableCreation` has no timeout.
- `GetGamerDetails` reads the key from `pathParameters["gamerID"]`.
- `main` in `tableCreateV2.go` never calls `HandleDynamoDBError`. It checks the raw CreateTable
  error's text for "Table already exists". So a `ResourceInUseException` whose text lacks that
  phrase is fatal there: the process exits with status 1.

## Model

| member | source | states |
|---|---|---|
| `Strings.Contains` | tableCreateV2.go:99 | `strings.Contains(s, sub)` is true exactly when `sub` occurs at some index of `s` |
| `Strings.FormatInt` | lamda/main.go:75 | `fmt.Sprint` of the time stamp: a minus sign exactly for negative values, then one or more decimal digits; `FormatIntRoundTrip` gives its inverse |
| `Strings.FormatIntRoundTrip` | lamda/main.go:75 | the decimal text `fmt.Sprint` writes for the time stamp reads back as the same integer, so distinct stamps give distinct text |
| `TableCreate.GamerTableInput` | tableCreateV2.go:41-67 | the request names `gamerDetails` and has the composite key gamerID HASH, timeStamp RANGE, each declared once as a string and nothing else declared; `GamerTableShape` adds the capacities |
| `TableCreate.GamerTableShape` | tableCreateV2.go:19-67 | the request creates `gamerDetails` with key schema exactly [gamerID HASH, timeStamp RANGE]; both are declared once as strings and they are the only declared attributes; read capacity is PartitionWriteReadCap, write capacity is GlobalWriteReadCap, and Partition ≤ Global |
| `TableCreate.HandleDynamoDBError` | tableCreateV2.go:80-106 | an error it does not replace is returned exactly as it came in; its cases are stated by `ResourceInUseIsSuccess`, `KnownCodeIsWrapped`, `UnknownCodeClassification`, `NonApiErrorUnchanged` and `CreateClassifierSuccessIff` |
| `TableCreate.ResourceInUseIsSuccess` | tableCreateV2.go:84-86 | a ResourceInUseException classifies as nil, whatever its message |
| `TableCreate.KnownCodeIsWrapped` | tableCreateV2.go:87-96 | each of the five listed codes becomes a new non-API error whose text is its fixed prefix followed by the API message |
| `TableCreate.UnknownCodeClassification` | tableCreateV2.go:97-103 | for any other code, the result is the fixed DNS message if "no such host" occurs in the error's full text, and the unchanged error otherwise |
| `TableCreate.NonApiErrorUnchanged` | tableCreateV2.go:80-106 | nil and non-API errors are returned unchanged |
| `TableCreate.CreateClassifierSuccessIff` | tableCreateV2.go:80-106 | the result is nil exactly for nil and for ResourceInUseException, so a non-API error never becomes success |
| `TableCreate.WaitResult` | tableCreateV2.go:108-122 | the wait's result, one poll at a time: nil, or an error that some describe call returned; `WaitResultAtFirstTerminal`, `WaitSucceedsIff` and `WaitFailsWithFirstError` pin it down |
| `TableCreate.WaitResultAtFirstTerminal` | tableCreateV2.go:108-122 | the wait's result is decided by the first poll that is ACTIVE or an error: that error, or nil |
| `TableCreate.WaitSucceedsIff` | tableCreateV2.go:108-122 | the wait returns nil exactly when some poll reported ACTIVE with no describe error before it |
| `TableCreate.WaitFailsWithFirstError` | tableCreateV2.go:113-115 | a failed wait returns the first describe error unchanged; every earlier poll was a non-ACTIVE status |
| `TableCreate.WaitForTableCreation` | tableCreateV2.go:108-122 | the polling loop returns the wait's result, and it stops at the first terminal poll after `calls` DescribeTable calls |
| `TableCreate.CreateTableMain` | tableCreateV2.go:133-147 | a create error whose text contains "Table already exists" exits 0 without polling; any other create error is fatal without polling; only a nil create polls, and then the process exits 0 if the wait succeeded and is fatal with the wait's error otherwise |
| `TableDelete.HandleDeleteError` | tableDeleteV2/tableDeleteV2.go:55-69 | an error it does not replace is returned exactly as it came in; its cases are stated by `InUseIsWrapped`, `NotFoundCodesAgree`, `OtherErrorsUnchanged` and `DeleteClassifierSuccessIff` |
| `TableDelete.InUseIsWrapped` | tableDeleteV2/tableDeleteV2.go:60-61 | TableInUseException becomes the error "table is in use: " followed by the message |
| `TableDelete.NotFoundCodesAgree` | tableDeleteV2/tableDeleteV2.go:62-63 | TableNotFoundException and ResourceNotFoundException give the same error, "table not found: " followed by the message |
| `TableDelete.OtherErrorsUnchanged` | tableDeleteV2/tableDeleteV2.go:58-68 | any other API code, any non-API error and nil are returned unchanged |
| `TableDelete.DeleteClassifierSuccessIff` | tableDeleteV2/tableDeleteV2.go:55-69 | the classifier's result is nil exactly when its input is nil: no non-nil error, including not-found, becomes success |
| `TableDelete.DeleteTable` | tableDeleteV2/tableDeleteV2.go:43-50 | `deleteTable` returns nil exactly when the DeleteTable call did, and passes a non-API error through unchanged |
| `TableDelete.DeleteTableMain` | tableDeleteV2/tableDeleteV2.go:30-33 | the process exits 0 exactly when the delete call succeeded; otherwise it is fatal and reports the classified error |
| `GamerLambda.GamerItem` | lamda/main.go:71-80 | the item written has exactly the five record fields as its attributes |
| `GamerLambda.GamerItemInjective` | lamda/main.go:71-80 | distinct records are written as distinct items; the item determines the record |
| `GamerLambda.ReadGamerItemInverts` | lamda/main.go:133 | a decoder that inverts the item encoding exists, so the round-trip hypothesis can be met |
| `GamerLambda.Stamp` | lamda/main.go:66-68 | no contract of its own: the server id and time stamp replace the body's; specified by `StampOverridesClient` and used by `CreateOutcome` |
| `GamerLambda.StampOverridesClient` | lamda/main.go:54-68 | the stored record's id and time stamp are the server's values, whatever the client sent; name, phone and game come from the body |
| `GamerLambda.PathParameter` | lamda/main.go:91 | no contract of its own: Go map indexing, a missing `gamerID` reads as the empty string; `GetStatus` states the lookup in its terms |
| `GamerLambda.OtherMethodRejected` | lamda/main.go:42-49 | any method other than POST and GET gives 400 "Invalid HTTP method" and leaves the store unchanged |
| `GamerLambda.OnlySuccessfulCreateWrites` | lamda/main.go:41-116 | the store changes only on a POST whose body decodes and whose write succeeds; then the response is 201 and the only change is the new item under the generated id |
| `GamerLambda.BadBodyRejected` | lamda/main.go:60-64 | an unparseable POST body gives 400 "Invalid request body" and no write |
| `GamerLambda.CreateOutcome` | lamda/main.go:66-87 | a decodable POST stores the record (generated id, clock, body's name/phone/game) and answers 201 with that record's JSON, or answers 500 "Failed to create gamer" with no change when the write fails |
| `GamerLambda.GetStatus` | lamda/main.go:90-115 | a GET looks up `pathParameters["gamerID"]`: 500 exactly on a store failure or an undecodable item, 404 "Gamer not found" exactly when the key is absent, and 200 with the decoded record's JSON exactly when it decodes |
| `GamerLambda.StatusCodes` | lamda/main.go:41-116 | every response has status 200, 201, 400, 404 or 500 |
| `GamerLambda.CreateThenGet` | lamda/main.go:71-115 | with the map store and a decoder that inverts the item encoding, a 201 create followed by a GET on the generated id answers 200 with the same body and changes nothing |
| `GamerLambda.GamerTable.PutItem` | lamda/main.go:82 | a successful put stores the item under its `gamerID` and replaces any previous one; a failed put changes nothing and returns the failure |
| `GamerLambda.GamerTable.GetItem` | lamda/main.go:100 | a successful get returns the item stored under the key, or none; a failed get returns the failure |
| `GamerLambda.CopyAttributeMap` | lamda/main.go:128-131 | the copy loop builds a map with exactly the keys and values of its input |
| `GamerLambda.UnmarshalAttributeValue` | lamda/main.go:127-139 | decoding the copy gives what decoding the item itself gives |
| `GamerLambda.CreateGamer` | lamda/main.go:52-88 | the response and the new store contents are those of `CreateGamerSpec`; the Go error is always nil |
| `GamerLambda.GetGamerDetails` | lamda/main.go:90-116 | the response is that of `GetGamerSpec` and the store is only read; the Go error is always nil |
| `GamerLambda.HandleRequest` | lamda/main.go:41-50 | the response and new store contents are those of `HandleSpec` (POST creates, GET reads, anything else is 400); the Go error is always nil |
| `GamerLambda.CreateThenGetOnTable` | lamda/main.go:41-116 | through the store object, a create answering 201 followed by a GET on the generated id answers 200 with the same body |

## Left out

- AWS SDK calls are abstract inputs. This covers CreateTable, DescribeTable, DeleteTable,
  PutItem, GetItem, `attributevalue.UnmarshalMap` and `errors.As` on `smithy.APIError`. Their
  results are parameters (`createErr`, `polls`, `callErr`, the faults in `Env`) or oracles
  (`Codec`).
- DynamoDB's own semantics are not modelled, so the round-trip lemmas hold only for the map store.
  Real DynamoDB differs in two ways. The table declares `timeStamp` as a string key, but the
  handler writes it as a number (lamda/main.go:75 against tableCreateV2.go:49-50). GetItem sends
  only the partition key of a table whose key is composite (lamda/main.go:95-97 against
  tableCreateV2.go:53-62).
- `AttributeValue` has only the S and N kinds, the two the handler writes. Other kinds are not
  modelled. An item that does not decode is still possible, for example one with a field of the
  wrong kind.
- JSON encoding and decoding, `uuid.New`, `time.Now` and `time.Sleep` are oracles or parameters.
  The sleep between polls is only a comment in `WaitForTableCreation`.
- `TableCreate.WaitForTableCreation` requires that some poll is ACTIVE or an error. On a sequence
  without one, the Go loop polls forever. The model takes a finite sequence that ends the wait
  and proves the loop terminates on it. It does not model the endless case.
- Configuration loading (`loadConfig`, `init`) is not modelled, and neither is the failure path
  that follows it. The same holds for the global `dbClient`, `lambda.Start`, all logging
  (including the `log.Println` inside `HandleDynamoDBError`), and `os.Exit`/`log.Fatalf`
  themselves. Exits are returned as `Exit(code, message)`
  values that keep only the last line written.
- `Strings.FormatInt` covers only the decimal form `fmt.Sprint` gives an `int64`. No other
  formatting verb is modelled.

