# Isolation-level name resolvers of TransactionIsolationDemo

TransactionIsolationDemo is an ASP.NET application that shows dirty reads, non-repeatable
reads, phantom reads, lost updates and write skew live. Each scenario runs two transactions,
A and B, against SQL Server. The client names the isolation level as free text, such as
`"REPEATABLE READ"`. A resolver turns that text into a `System.Data.IsolationLevel`, and the
transaction is opened at that level.

This project models that resolver in Dafny. The repository has two copies of it:

- `IsolationLevelHelper.GetIsolationLevel` is the shared copy. It recognises five names: the
  four SQL-92 levels and SQL Server's `SNAPSHOT`. The five anomaly controllers call it.
- The private `GetIsolationLevel` inside `TransactionController` is a second copy, used only
  by `TransactionController` itself (Controllers/TransactionController.cs:24 and :67). It has
  no `SNAPSHOT` arm and recognises only the four SQL-92 names.

Both copies are total and pure:

- The match is exact and case-sensitive.
- Any other input, including a `null` reference, silently resolves to `ReadCommitted`. No
  error is raised.

Files:

- `wrappers.dfy` (module `Wrappers`) holds `Option`. The C# `string` parameter can be `null`,
  so each resolver takes an `Option<string>`, and `None` stands for `null`.
- `system_data.dfy` (module `SystemData`) holds the enumeration `System.Data.IsolationLevel`
  with all seven of its members. It also gives `Keyword(l)`, the SQL Server spelling of each
  nameable level. Finally it marks the four levels of ISO/IEC 9075:1992 (SQL-92), section 4.28.
  `Snapshot` is a SQL Server extension, not one of those four.
- `ascii_text.dfy` (module `AsciiText`) has character classes and ASCII case folding. They are
  used to state what happens to case variants and padded names.
- `isolation_level_helper.dfy` (module `IsolationLevelHelper`) models the shared resolver.
- `transaction_controller.dfy` (module `TransactionController`) models the private copy and
  relates it to the shared one.

## Model

| member | source | states |
|---|---|---|
| `SystemData.Keyword` | Utils/IsolationLevelHelper.cs:9-13 | exactly the five levels the switch names have a name; each name is non-empty, made of capital letters and blanks, with a capital letter at each end |
| `SystemData.KeywordInjective` | Utils/IsolationLevelHelper.cs:9-13 | no two levels share a name, so the switch arms are distinct |
| `SystemData.KeywordLengthInjective` | Utils/IsolationLevelHelper.cs:9-13 | the five names even differ in length, so equal length already pins down the level |
| `IsolationLevelHelper.GetIsolationLevel` | Utils/IsolationLevelHelper.cs:5-16 | total on every input, `null` included; the result is one of the five named levels and never `Unspecified` or `Chaos`; any result other than `ReadCommitted` comes only from that level's own name |
| `IsolationLevelHelper.RecognisedNames` | Utils/IsolationLevelHelper.cs:9-13 | `"READ UNCOMMITTED"`, `"READ COMMITTED"`, `"REPEATABLE READ"`, `"SNAPSHOT"` and `"SERIALIZABLE"` map to `ReadUncommitted`, `ReadCommitted`, `RepeatableRead`, `Snapshot` and `Serializable` |
| `IsolationLevelHelper.KeywordResolves` | Utils/IsolationLevelHelper.cs:9-13 | resolving a level's own name gives that level back, so the resolver is a left inverse of `Keyword` |
| `IsolationLevelHelper.UnrecognisedFallsBack` | Utils/IsolationLevelHelper.cs:14 | every input that is not one of the five names, `null` included, resolves to `ReadCommitted` |
| `IsolationLevelHelper.SoleInput` | Utils/IsolationLevelHelper.cs:9-14 | each named level other than `ReadCommitted` is produced by its own name and by no other input |
| `IsolationLevelHelper.ReadCommittedInputs` | Utils/IsolationLevelHelper.cs:10-14 | `ReadCommitted` is produced by `"READ COMMITTED"` and by exactly the unrecognised inputs (both directions) |
| `IsolationLevelHelper.Range` | Utils/IsolationLevelHelper.cs:7-15 | the levels the resolver can produce are exactly the five named ones (both directions) |
| `IsolationLevelHelper.CaseVariantFallsBack` | Utils/IsolationLevelHelper.cs:7-15 | a string equal to a recognised name only up to letter case, such as `"serializable"`, resolves to `ReadCommitted` |
| `IsolationLevelHelper.SnapshotCaseVariant` | Utils/IsolationLevelHelper.cs:12-14 | `"snapshot"` equals `"SNAPSHOT"` up to letter case but is not that name, so `CaseVariantFallsBack` applies to it and it resolves to `ReadCommitted` |
| `IsolationLevelHelper.LowerCaseNameFallsBack` | Utils/IsolationLevelHelper.cs:7-15 | each of the five names written in lower case, such as `"serializable"`, resolves to `ReadCommitted` |
| `IsolationLevelHelper.ForeignCharacterFallsBack` | Utils/IsolationLevelHelper.cs:7-15 | a string holding any character other than a capital letter or a space resolves to `ReadCommitted` |
| `IsolationLevelHelper.PaddedFallsBack` | Utils/IsolationLevelHelper.cs:7-15 | a string with a leading or trailing blank, such as `" READ COMMITTED"`, resolves to `ReadCommitted`; input is not trimmed |
| `TransactionController.GetIsolationLevel` | Controllers/TransactionController.cs:91-101 | total on every input, `null` included; the result is always a SQL-92 level, never `Snapshot`, `Unspecified` or `Chaos`; any result other than `ReadCommitted` comes only from that level's own name |
| `TransactionController.RecognisedNames` | Controllers/TransactionController.cs:95-98 | `"READ UNCOMMITTED"`, `"READ COMMITTED"`, `"REPEATABLE READ"` and `"SERIALIZABLE"` map to `ReadUncommitted`, `ReadCommitted`, `RepeatableRead` and `Serializable` |
| `TransactionController.Sql92KeywordResolves` | Controllers/TransactionController.cs:95-98 | resolving the name of any SQL-92 level gives that level back |
| `TransactionController.UnrecognisedFallsBack` | Controllers/TransactionController.cs:99 | every input that is not one of the four SQL-92 names, `null` included, resolves to `ReadCommitted` |
| `TransactionController.SnapshotFallsBack` | Controllers/TransactionController.cs:93-100 | `"SNAPSHOT"` is not recognised here and resolves to `ReadCommitted` |
| `TransactionController.Range` | Controllers/TransactionController.cs:95-99 | the levels this copy can produce are exactly the four SQL-92 ones (both directions) |
| `TransactionController.AgreesWithHelper` | Controllers/TransactionController.cs:93-100 | this copy equals the shared helper (Utils/IsolationLevelHelper.cs:7-15) with `Snapshot` replaced by `ReadCommitted`; the two differ on `"SNAPSHOT"` and on no other input |

## Left out

- The scenario bodies are left out: `SimulateTransactionA` and `SimulateTransactionB` in the
  five anomaly controllers and in `TransactionController`. They are sequences of EF Core calls,
  SignalR sends and `Task.Delay` pauses. What they observe is decided by SQL Server's locking
  and versioning, which is outside the repository. This includes the commit-or-rollback
  handling. As written, a failing commit or a failed SignalR send after a commit also reaches
  the rollback in the `catch`, and the transaction is begun outside the `try`.
- The quantity arithmetic and the `waitingCount < 1` rule inside those bodies are left out.
  They mean something only relative to the database reads around them.
- Random product names, quantities and prices are left out (nondeterminism), and so are the
  `SleepTime` delays (wall-clock timing only).
- `HomeController` (database reset and view rendering), `Program.cs` (hosting), the SignalR hub,
  the EF Core context and the `Order` record are configuration or wrappers over libraries. They
  carry no logic of their own.
- The numeric values of the `System.Data.IsolationLevel` members are left out. Neither resolver
  uses them.
- The private resolver is an instance method of `TransactionController`. It reads no field,
  so it is modelled as a plain function of the controller module.
