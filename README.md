# Allure → Zephyr synchronisation, modelled in Dafny

This project models the core of a tool that pushes local Allure test results
to the Zephyr test-management service:

- the canonical request hash (QSH): the string `UPPER(method)&uri&`, its
  SHA-256 digest and the digest's lower-case hex form (`QshCalculator`);
- the claim set of the signed JWT (`JwtGenerator`);
- the two Allure result parsers: the tag scanner that builds a
  `CBD-<digits>` → status map (`AllureResultParser`), and the `testCaseId`
  reader that builds an ordered list (`AllureParser`);
- the HTTP client's mock short-cut, bounded retry loop and auth headers
  (`ApiClient`);
- the status table and the call sequence of the sync's `main`
  (`AllureToZephyrSync`);
- the payload and header builders (`PayloadBuilder`, `HeaderBuilder`).

Each Dafny module matches one Java file. `common.dfy` holds `Option` and
the ASCII case mapping. `allure_docs.dfy` holds the parsed-document
datatypes that both parsers read.

The modules follow the form of the Java code:

- Loops that build a result step by step are methods with loop invariants.
  These are `sha256Hex`, both `parseResults`, `sendRequest` and the update
  loop of `main`. Each is proved equal to a specification function, or
  specified directly in its `ensures`.
- The pure builders are functions.
- The Zephyr client of `main` is a class whose `trace` field records every
  call.

Everything outside the program is a parameter:

- the digest: a `Digest`, i.e. `string -> seq<int8>`;
- the JWT signer: a `Signer`;
- the clock: `nowMs` and `today`;
- the directory listing with its parsed documents: `seq<ResultFile>`;
- the network: a `Transport` that gives the outcome of each attempt by its
  number;
- the mock response, and the replies of the Zephyr service.

Behaviour of the code that the model keeps:

- `AllureResultParser` writes every matching `tag` label of a file into
  the map.
- `main` calls `updateExecution(null, status)` for a parsed id that has no
  registered execution (modelled as `None`).
- A cycle reply without an `id` gives the cycle id `""`, because
  `asText()` turns a missing node into `""`. The run goes on.
- `main` uses the list parser, so duplicate ids are kept and each one gets
  its own update.
- `ApiClient` sends the `zapiAccessKey` and `zapiSecretKey` headers, with
  no JWT and no `Authorization` header.
- The retry failure message names the endpoint only.
- `main` prints no per-status counts.

## Model

| member | source | states |
|---|---|---|
| `QshCalculator.CanonicalRequest` | zephyr-updater-cli/src/main/java/com/utility/QshCalculator.java:8 | the canonical string is two characters longer than method and URI together |
| `QshCalculator.ParseCanonicalRequest` | zephyr-updater-cli/src/main/java/com/utility/QshCalculator.java:8 | for a method without '&', splitting the canonical string at its first '&' and dropping the trailing '&' gives back exactly (upper-cased method, URI), even when the URI contains '&' |
| `QshCalculator.CanonicalIgnoresMethodCase` | zephyr-updater-cli/src/main/java/com/utility/QshCalculator.java:8 | two methods give the same canonical string for a URI if and only if they are equal after upper-casing |
| `QshCalculator.CanonicalInjective` | zephyr-updater-cli/src/main/java/com/utility/QshCalculator.java:8 | for '&'-free methods, equal canonical strings if and only if equal upper-cased methods and equal URIs |
| `QshCalculator.Unsigned` | zephyr-updater-cli/src/main/java/com/utility/QshCalculator.java:18 | `0xff & b` lies in 0..255 and is congruent to the signed byte modulo 256 |
| `QshCalculator.Signed` | zephyr-updater-cli/src/main/java/com/utility/QshCalculator.java:18 | each unsigned value 0..255 comes from exactly the byte this returns |
| `QshCalculator.HexDigit` | zephyr-updater-cli/src/main/java/com/utility/QshCalculator.java:18 | every digit `Integer.toHexString` writes is in `0-9a-f` |
| `QshCalculator.HexValue` | zephyr-updater-cli/src/main/java/com/utility/QshCalculator.java:18 | a character has a hex value exactly when it is in `0-9a-f`, and that value maps back to the character |
| `QshCalculator.ToHexString` | zephyr-updater-cli/src/main/java/com/utility/QshCalculator.java:18 | `Integer.toHexString` never returns the empty string |
| `QshCalculator.ByteHex` | zephyr-updater-cli/src/main/java/com/utility/QshCalculator.java:17-20 | `toHexString(0xff & b)` padded to two characters is exactly the high and the low base-16 digit of the unsigned byte |
| `QshCalculator.HexOf` | zephyr-updater-cli/src/main/java/com/utility/QshCalculator.java:16-22 | the hex string is twice as long as the digest |
| `QshCalculator.HexOfIsLowerHex` | zephyr-updater-cli/src/main/java/com/utility/QshCalculator.java:16-22 | every character of the hex string is in `0-9a-f` |
| `QshCalculator.HexOfSnoc` | zephyr-updater-cli/src/main/java/com/utility/QshCalculator.java:17-21 | appending one more byte to the digest appends exactly its two hex characters |
| `QshCalculator.HexStep` | zephyr-updater-cli/src/main/java/com/utility/QshCalculator.java:17-20 | one iteration of the builder loop, appending `"0"` when `toHexString` gave one digit and then the digits, extends the hex of the bytes so far to the hex of one more byte |
| `QshCalculator.ByteHexDecodes` | zephyr-updater-cli/src/main/java/com/utility/QshCalculator.java:17-20 | the two characters written for a byte read back, as high and low digit, to that byte |
| `QshCalculator.DecodeHex` | zephyr-updater-cli/src/main/java/com/utility/QshCalculator.java:16-22 | a successful decode has half as many bytes as the hex string has characters |
| `QshCalculator.DecodeHexOf` | zephyr-updater-cli/src/main/java/com/utility/QshCalculator.java:16-22 | decoding the hex string gives back the original digest bytes |
| `QshCalculator.HexOfInjective` | zephyr-updater-cli/src/main/java/com/utility/QshCalculator.java:16-22 | two digests have the same hex string if and only if they are equal |
| `QshCalculator.Sha256Hex` | zephyr-updater-cli/src/main/java/com/utility/QshCalculator.java:12-26 | the builder loop produces the hex form of the digest of its input |
| `QshCalculator.CalculateQsh` | zephyr-updater-cli/src/main/java/com/utility/QshCalculator.java:7-10 | the QSH decodes to the digest of the canonical string, is lower-case hex, and has 64 characters for a 32-byte digest |
| `QshCalculator.QshFormat` | zephyr-updater-cli/src/main/java/com/utility/QshCalculator.java:14-22 | a 32-byte digest gives exactly 64 characters, all in `0-9a-f` |
| `QshCalculator.QshIgnoresMethodCase` | zephyr-updater-cli/src/main/java/com/utility/QshCalculator.java:7-10 | methods that agree after upper-casing (`get`, `GET`) give the same QSH |
| `QshCalculator.QshBindsDigest` | zephyr-updater-cli/src/main/java/com/utility/QshCalculator.java:7-22 | equal QSHs imply equal digests of the two canonical strings |
| `JwtGenerator.JavaDiv` | zephyr-updater-cli/src/main/java/com/utility/JwtGenerator.java:14 | Java `long` division rounds toward zero: the remainder has the sign of the dividend and is smaller than the divisor |
| `JwtGenerator.ExpiryIsOneHourAhead` | zephyr-updater-cli/src/main/java/com/utility/JwtGenerator.java:8-14 | for a clock reading at or after the epoch, `exp` is the issue second plus 3600, and `exp * 1000 <= now + 3600000 < exp * 1000 + 1000` |
| `JwtGenerator.ExpirySeconds` | zephyr-updater-cli/src/main/java/com/utility/JwtGenerator.java:8-14 | `exp` is `now + 3600000` milliseconds divided by 1000 with truncation toward zero: for a non-negative sum, `exp * 1000 <= sum < exp * 1000 + 1000`; for a negative one, `exp * 1000 - 1000 < sum <= exp * 1000` |
| `JwtGenerator.JwtClaims` | zephyr-updater-cli/src/main/java/com/utility/JwtGenerator.java:10-15 | the claim set is exactly {sub, qsh, iss, exp}: sub and iss are the access key, qsh is the request's QSH, and exp is the expiry in seconds |
| `JwtGenerator.GenerateJwtContents` | zephyr-updater-cli/src/main/java/com/utility/JwtGenerator.java:7-16 | the token is the signer applied, with the secret key, to a claim set of exactly sub, qsh, iss and exp: the access key as sub and iss, a qsh that decodes to the digest of the canonical request, and an exp 3600 seconds after the issue second |
| `JwtGenerator.GenerateJwtIgnoresBaseUrl` | zephyr-updater-cli/src/main/java/com/utility/JwtGenerator.java:7-15 | two calls that differ only in `baseUrl` give the same token |
| `JwtGenerator.QshClaimEncodesRequest` | zephyr-updater-cli/src/main/java/com/utility/JwtGenerator.java:12 | the `qsh` claim has 64 characters and decodes to the digest of the canonical request |
| `JwtGenerator.ClaimsBindRequest` | zephyr-updater-cli/src/main/java/com/utility/JwtGenerator.java:12 | equal claim sets for two requests imply equal digests of their canonical strings |
| `AllureResultParser.DigitRunEnd` | src/main/java/com/example/zephyr/AllureResultParser.java:20 | `\d+` is greedy: the run covers only digits and stops at a non-digit or at the end |
| `AllureResultParser.MatchAt` | src/main/java/com/example/zephyr/AllureResultParser.java:20-32 | a match starts at a position exactly when `CBD-` and a digit stand there; the match is a `CBD-\d+` key at that position and takes the maximal run of digits |
| `AllureResultParser.LeftmostMatch` | src/main/java/com/example/zephyr/AllureResultParser.java:31 | `find()` picks the first position where the pattern starts, and no earlier position matches |
| `AllureResultParser.FindTestCaseKey` | src/main/java/com/example/zephyr/AllureResultParser.java:30-32 | a found key matches `CBD-\d+` and occurs in the value at a position where the pattern starts, with no start before it, and it takes the whole run of digits there; nothing is found exactly when the pattern starts nowhere in the value |
| `AllureResultParser.FindTestCaseKeyOfKey` | src/main/java/com/example/zephyr/AllureResultParser.java:30-32 | a tag whose whole value is a key yields that key |
| `AllureResultParser.TagKeys` | src/main/java/com/example/zephyr/AllureResultParser.java:27-35 | every key taken from a document's tags matches `CBD-\d+` |
| `AllureResultParser.PutTagsEffect` | src/main/java/com/example/zephyr/AllureResultParser.java:27-35 | the label loop adds exactly the document's tag keys, all mapped to its status, and leaves every other entry alone |
| `AllureResultParser.ResultMapKeys` | src/main/java/com/example/zephyr/AllureResultParser.java:22-40 | a key is in the result if and only if some `-result.json` file that parses carries it in a `tag` label |
| `AllureResultParser.LastWriteWins` | src/main/java/com/example/zephyr/AllureResultParser.java:33 | a key maps to the status of the last file in listing order that carries it |
| `AllureResultParser.ResultMapEntries` | src/main/java/com/example/zephyr/AllureResultParser.java:25-33 | every key matches `CBD-\d+`, and its value is the status of a file that carries that key |
| `AllureResultParser.SkippedFileIsInvisible` | src/main/java/com/example/zephyr/AllureResultParser.java:22-39 | a file with another suffix, or one that fails to parse, leaves the result of the other files unchanged |
| `AllureResultParser.ParseResults` | src/main/java/com/example/zephyr/AllureResultParser.java:16-42 | the nested loops build exactly `ResultMap(listing)` |
| `AllureResultParser.MalformedFileExample` | src/main/java/com/example/zephyr/AllureResultParser.java:22-40 | two tagged results and a malformed file give exactly {CBD-1: passed, CBD-2: failed} |
| `AllureResultParser.DuplicateKeyExample` | src/main/java/com/example/zephyr/AllureResultParser.java:33 | CBD-1 passed, then CBD-1 failed, resolves to failed |
| `AllureParser.FirstTestCaseIdAt` | zephyr-updater-cli/src/main/java/com/utility/allureParser.java:23-27 | the label chosen is named `testCaseId` and no earlier label is; none is chosen exactly when no label has that name |
| `AllureParser.FileResult` | zephyr-updater-cli/src/main/java/com/utility/allureParser.java:16-32 | a file adds one result exactly when it is `.json`, parses and has a `testCaseId` label; the result is that first label's value verbatim and the file's status |
| `AllureParser.JsonFileCount` | zephyr-updater-cli/src/main/java/com/utility/allureParser.java:16 | no more files pass the `.json` filter than are listed |
| `AllureParser.ResultsSnoc` | zephyr-updater-cli/src/main/java/com/utility/allureParser.java:16-31 | one more listed file appends exactly that file's result (or nothing) to the list |
| `AllureParser.ResultsAppend` | zephyr-updater-cli/src/main/java/com/utility/allureParser.java:13-31 | the results of two consecutive stretches of the listing are the first stretch's results followed by the second's, so order and duplicates are kept |
| `AllureParser.ResultsBound` | zephyr-updater-cli/src/main/java/com/utility/allureParser.java:16-31 | there are no more results than `.json` files |
| `AllureParser.SkippedFileIsInvisible` | zephyr-updater-cli/src/main/java/com/utility/allureParser.java:17-35 | a file that adds nothing, including one whose parse failed, leaves the other files' results unchanged |
| `AllureParser.DuplicatesKept` | zephyr-updater-cli/src/main/java/com/utility/allureParser.java:31 | two files with the same id give two results, in listing order |
| `AllureParser.ParseResults` | zephyr-updater-cli/src/main/java/com/utility/allureParser.java:12-39 | the file loop, with its inner loop that breaks at the first `testCaseId`, builds exactly `Results(listing)` |
| `ApiClient.BuildAuthHeaders` | src/test/java/com/utility/ApiClient.java:74-81 | the headers are exactly zapiAccessKey, zapiSecretKey and Content-Type=application/json; there is no Authorization header |
| `ApiClient.AuthHeadersIgnoreUri` | src/test/java/com/utility/ApiClient.java:74-81 | the headers do not depend on the URL they are built for |
| `ApiClient.FirstSuccess` | src/test/java/com/utility/ApiClient.java:43-69 | finds the first attempt below the limit with a 2xx answer, or proves that no attempt below the limit got one |
| `ApiClient.SendRequest` | src/test/java/com/utility/ApiClient.java:31-72 | mock mode returns the canned response with no attempt; otherwise there are at most `max(MAX_RETRIES, 0)` attempts, all sending the same request to `BASE_URL + endpoint` with a null body sent as ""; the first 2xx answer is returned at once; if none comes, or the method name is unknown, every attempt is used and the call fails with a message naming the endpoint |
| `ApiClient.FirstSuccessIs` | src/test/java/com/utility/ApiClient.java:57-59 | a 2xx attempt with only failures before it is the first success |
| `ApiClient.BodyText` | src/test/java/com/utility/ApiClient.java:48 | a null body is sent as the empty string, any other body as it is |
| `ApiClient.ThirdAttemptSucceeds` | src/test/java/com/utility/ApiClient.java:43-68 | `sendRequest` with three attempts allowed, answered 500, 500 and then 200, returns the 200 response after exactly three attempts, each of which sent a request with the verb POST |
| `AllureToZephyrSync.MapStatus` | zephyr-updater-cli/src/main/java/com/utility/AllureToZephyrSync.java:38-45 | passed→1, failed→2 and broken→4, each case-insensitively and if and only if; every other status →−1 |
| `AllureToZephyrSync.MapStatusIgnoresCase` | zephyr-updater-cli/src/main/java/com/utility/AllureToZephyrSync.java:39 | upper-casing a status does not change its code |
| `AllureToZephyrSync.MapStatusExamples` | zephyr-updater-cli/src/main/java/com/utility/AllureToZephyrSync.java:38-45 | PASSED→1, Failed→2, broken→4, skipped→−1 |
| `AllureToZephyrSync.ZephyrClient.constructor` | zephyr-updater-cli/src/main/java/com/utility/AllureToZephyrSync.java:12-17 | a new client has an empty trace and the given replies |
| `AllureToZephyrSync.ZephyrClient.CreateCycle` | zephyr-updater-cli/src/main/java/com/utility/AllureToZephyrSync.java:21 | records the call and returns the cycle reply |
| `AllureToZephyrSync.ZephyrClient.CreateExecutions` | zephyr-updater-cli/src/main/java/com/utility/AllureToZephyrSync.java:27 | records the call and returns the issue-key → execution-id map |
| `AllureToZephyrSync.ZephyrClient.UpdateExecution` | zephyr-updater-cli/src/main/java/com/utility/AllureToZephyrSync.java:32 | records the call |
| `AllureToZephyrSync.CycleIdOf` | zephyr-updater-cli/src/main/java/com/utility/AllureToZephyrSync.java:22 | the cycle id is the reply's `id` field, or `""` when the reply has none |
| `AllureToZephyrSync.IssueKeys` | zephyr-updater-cli/src/main/java/com/utility/AllureToZephyrSync.java:25 | one issue key per parsed result, in order: the i-th key is the i-th result's id |
| `AllureToZephyrSync.Lookup` | zephyr-updater-cli/src/main/java/com/utility/AllureToZephyrSync.java:31 | `executions.get(id)` gives a value exactly when the id is a key, and then the registered execution id |
| `AllureToZephyrSync.UpdatesAt` | zephyr-updater-cli/src/main/java/com/utility/AllureToZephyrSync.java:29-33 | there is one update per result, and the i-th update carries `executions.get(id)` (null when absent) and the mapped status of the i-th result |
| `AllureToZephyrSync.UpdatesSnoc` | zephyr-updater-cli/src/main/java/com/utility/AllureToZephyrSync.java:29-33 | one more loop iteration appends exactly one update call |
| `AllureToZephyrSync.SyncTraceShape` | zephyr-updater-cli/src/main/java/com/utility/AllureToZephyrSync.java:19-33 | the cycle `"Automation Cycle - " + today` is created for the project with version −1; the executions are then registered with the parsed ids in order, the cycle reply's id and the same project; then one update per parsed result, in list order |
| `AllureToZephyrSync.SyncTraceOrder` | zephyr-updater-cli/src/main/java/com/utility/AllureToZephyrSync.java:21-33 | createCycle happens exactly once, first; createExecutions exactly once, second; every later call is an update |
| `AllureToZephyrSync.UpdatePhaseExample` | zephyr-updater-cli/src/main/java/com/utility/AllureToZephyrSync.java:29-33 | results CBD-1 passed and CBD-2 broken, registered as E1 and E2, give the updates (E1, 1) and then (E2, 4) |
| `AllureToZephyrSync.UpdateAll` | zephyr-updater-cli/src/main/java/com/utility/AllureToZephyrSync.java:29-33 | the update loop appends exactly `Updates(results, executions)`: one call per result, in list order |
| `AllureToZephyrSync.RunSync` | zephyr-updater-cli/src/main/java/com/utility/AllureToZephyrSync.java:11-36 | `main` appends exactly `SyncTrace(...)` to the client's trace |
| `PayloadBuilder.BuildCyclePayload` | src/main/java/com/utility/PayloadBuilder.java:7-13 | the keys are exactly {name, projectId, versionId}, with name a string and both ids integers |
| `PayloadBuilder.CyclePayloadRoundTrip` | src/main/java/com/utility/PayloadBuilder.java:7-13 | reading the payload back gives the arguments unchanged |
| `PayloadBuilder.CyclePayloadInjective` | src/main/java/com/utility/PayloadBuilder.java:7-13 | different arguments give different payloads |
| `PayloadBuilder.BuildAddTestPayload` | src/main/java/com/utility/PayloadBuilder.java:15-21 | the keys are exactly {issueId, cycleId, projectId}, and every value is a string |
| `PayloadBuilder.AddTestPayloadRoundTrip` | src/main/java/com/utility/PayloadBuilder.java:15-21 | reading the payload back gives the arguments unchanged, with the project id as text |
| `HeaderBuilder.BuildHeaders` | src/main/java/com/utility/HeaderBuilder.java:7-14 | the headers are exactly Content-Type=application/json, the fixed placeholder Authorization, and X-Method-Type set to the method type verbatim |
| `HeaderBuilder.BuildHeadersDependsOnlyOnMethodType` | src/main/java/com/utility/HeaderBuilder.java:7-13 | two calls give equal headers if and only if their method types are equal; `hasQueryParams` has no effect |

## Left out

- SHA-256, HMAC-SHA256 and base64url are library calls: `MessageDigest`, auth0 `JWT` and `Algorithm`. The digest, together with the UTF-8 encoding, is the parameter `sha256`. The signer is the parameter `sign`. Nothing is assumed about either, apart from the digest length where a statement says so. The `RuntimeException` wrapping in `sha256Hex` cannot occur for SHA-256 and UTF-8, so it is not modelled.
- A signing failure, for example a null secret key, is not modelled.
- JSON parsing is not modelled. Each file comes with its parsed document, or `None` when parsing threw.
- Directory listing is not modelled: `File.listFiles`, `Files.list`, their order, and the failure on a missing directory (`Objects.requireNonNull`, or the `IOException` from `Files.list`). Each parser gets the listing in listing order. `ResultFile.name` is the string each filter tests: the file name for `listFiles`, the path for `Files.list`.
- Regex-engine internals are not modelled. The `CBD-\d+` find is a direct scan for ASCII digits, as Java's default `\d` matches.
- The clock is a parameter. `System.currentTimeMillis` is `nowMs`, and the formatted date is `today`.
- `JwtGenerator.ExpirySeconds` does not model the 64-bit overflow of `currentTimeMillis() + 3600000`, which needs a clock near 2^63 ms.
- HTTP plumbing is not modelled: the RestAssured timeout set-up, request logging, and the GET that `createMockResponse` itself issues. The mock response is the parameter `mockResponse`. `CLIENT_ID` and `TIMEOUT` are carried in `ClientConfig` and have no effect in the model.
- Diagnostic printing is not modelled: the per-attempt messages, `printStackTrace`, and the final "sync completed" line.
- `ZephyrClient.java` is not part of this model, because its whole text is commented out. `main`'s client is a recorder class that always answers with the replies it was built with. So the `IOException`s that would abort `main`, and a cycle reply that is not JSON, are not modelled. The cycle reply is given already parsed, as its top-level text fields.
- `ConfigReader` and `TestCaseResult.java` are not part of this model. The configuration values are plain inputs. `TestCaseResult` is a datatype with the `id` and `status` fields `main` uses.
- Java `null` strings are not modelled, except for the request body and the execution-id lookup, where the code handles `null`.
- Java's `toUpperCase` and `toLowerCase` are locale-sensitive. The model maps ASCII letters only.
