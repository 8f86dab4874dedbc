# Pagination query and startup configuration of a Q&A web service

This project models, in Dafny, two pure pieces of a Rust web backend:

- **`extract_pagination`** (`src/types/pagination.rs`) turns the query
  parameters of `GET /questions` into a `Pagination { limit: Option<u32>, offset: u32 }`.
  Both keys `start` and `end` must be present, otherwise the result is
  `Error::MissingParameters`. Then `start` is parsed as a `u32` into `limit`
  and `end` into `offset`. The first parse failure is returned as
  `Error::ParseError`.
- **`Config::new`** (`src/config.rs`) merges the command-line `Config` with the
  environment. It panics if `BAD_WORDS_API_KEY` or `PASETO_KEY` is unset. `PORT`
  defaults to 3030 and is parsed as a `u16`. `POSTGRES_USER`, `POSTGRES_HOST`,
  `POSTGRES_PORT` and `POSTGRES_DB` override the command line. It panics if
  `POSTGRES_PASSWORD` is unset. The database port text is parsed as a `u16` last.

Both rely on Rust's `str::parse::<u32>` / `str::parse::<u16>`. The module
`IntParse` models that parse: the empty string gives `Empty`; a lone `+` or `-`
gives `InvalidDigit`; one leading `+` is dropped; then each character must be
an ASCII digit (`InvalidDigit` otherwise) and the running value may not pass
the type's maximum (`PosOverflow` otherwise), the digit check coming first.
It also models `to_string` on these types.

Files:

- `wrappers.dfy`: module `Wrappers` with `Option` and `Result`. `:-` on a `Result` plays the part of `?`.
- `int_parse.dfy`: module `IntParse`, the `u16`/`u32` parse and rendering, with
  reference definitions (`IsUnsignedLiteral`, `Magnitude`, `Accepts`,
  `Overflows`) and the lemmas that tie the parse to them.
- `errors.dfy`: module `Errors`, the variants of `handle_errors::Error` the two functions build.
- `pagination.dfy`: module `QueryPagination`.
- `config.dfy`: module `StartupConfig`. The outcome of `Config::new` is
  `Panic(reason) | Err(error) | Ok(config)`.

Inputs that are I/O in the source are parameters here. The query map is a
`map<string, string>`. The process environment is a `map<string, string>`.
A variable is unset exactly when its key is absent. The command-line record
is a `Config` value.

The query keys are `start` and `end`. `start` fills `limit` and `end` fills
`offset`. A missing required variable makes `Config::new` panic. The model
records this as an explicit `Panic` outcome.

## Model

| member | source | states |
|---|---|---|
| `IntParse.Accumulate` | src/types/pagination.rs:34 | the digit loop of the parse: a success lies between the value so far and the type's maximum, and it never reports `Empty` |
| `IntParse.AccumulateRun` | src/types/pagination.rs:34 | the digit loop ends in `PosOverflow` exactly when the leading digit run exceeds the maximum, else in `InvalidDigit` when a non-digit follows that run, else in the value of all the digits |
| `IntParse.ParseUnsignedSpec` | src/types/pagination.rs:34 | `parse` succeeds exactly on texts of an optional `+` and one or more digits whose value fits, returning that value; `Empty` exactly for the empty text; `PosOverflow` exactly when the digits before the first non-digit exceed the maximum; `InvalidDigit` in every other case |
| `IntParse.ParseUnsigned` | src/types/pagination.rs:34 | `from_str_radix(s, 10)` for an unsigned type with largest value `max`: a success never exceeds `max`; its full characterisation is `IntParse.ParseUnsignedSpec` |
| `IntParse.ParseU32` | src/types/pagination.rs:31-35 | `parse::<u32>` succeeds exactly on accepted texts up to 4294967295, with their value; `Empty` iff the text is empty; `PosOverflow` iff the leading digit run exceeds 4294967295 |
| `IntParse.ParseU16` | src/config.rs:54-58 | `parse::<u16>` succeeds exactly on accepted texts up to 65535, with their value; `Empty` iff the text is empty; `PosOverflow` iff the leading digit run exceeds 65535 |
| `IntParse.ParsePlusIgnored` | src/types/pagination.rs:34 | one leading `+` before a text not itself starting with `+` gives the same outcome as the text alone |
| `IntParse.ParseU16SignExamples` | src/config.rs:56-57 | empty text, lone `+`, lone `-`, `-1` and ` 1` are rejected with the stated kinds; `+7` and `007` give 7 |
| `IntParse.ParseU16BoundExamples` | src/config.rs:56-57 | `65535` parses; `65536` and `65536x` report `PosOverflow` |
| `IntParse.ToDecimal` | src/config.rs:64-65 | `to_string` of an unsigned value is a non-empty string of digits with no leading zero except for 0 itself |
| `IntParse.ToDecimalValue` | src/config.rs:64-65 | the rendered digits denote the rendered value |
| `IntParse.ParseToDecimal` | src/config.rs:64-78 | parsing `to_string(n)` back with any bound at least `n` gives `n` |
| `IntParse.ParseU16ToDecimal` | src/config.rs:64-78 | for every `u16`, `to_string` then `parse::<u16>` returns it |
| `IntParse.ParseU32ToDecimal` | src/types/pagination.rs:8-10 | for every `u32`, `to_string` then `parse::<u32>` returns it |
| `IntParse.Description` | src/types/pagination.rs:35 | each error kind has the standard library's `Display` text for a `ParseIntError`, and each of the three texts belongs to exactly one kind |
| `QueryPagination.ExtractPagination` | src/types/pagination.rs:27-46 | `MissingParameters` iff `start` or `end` is absent, whatever the values; `Ok` iff both values are accepted `u32` texts, with `limit == Some(value of start)` and `offset == value of end`; a bad `start` is reported whatever `end` holds; a bad `end` is reported only when `start` parsed |
| `QueryPagination.ExtractIgnoresOtherKeys` | src/types/pagination.rs:28-42 | two maps that agree on the entries for `start` and `end` give the same result |
| `QueryPagination.ExtractRoundTrip` | src/types/pagination.rs:27-42 | a successful result's two values rendered in decimal form a query that extracts to the same result |
| `QueryPagination.ExtractExamples` | src/types/pagination.rs:27-46 | an empty map and a map with only `start` give `MissingParameters`; `start=1,end=10` gives `limit Some(1), offset 10`; `start=NOT_A_NUMBER` gives `ParseError(InvalidDigit)`, whose message is "invalid digit found in string" |
| `StartupConfig.New` | src/config.rs:42-81 | covers the `unwrap_or` fallbacks of src/config.rs:60-67 as well: unset `BAD_WORDS_API_KEY` panics whatever else holds; then unset `PASETO_KEY` panics; then an invalid `PORT` gives `Err(ParseError)` whatever the password; on success the port is the value of `PORT` or 3030, user, host and database name come from the environment when set and from the command line otherwise, the password comes from `POSTGRES_PASSWORD`, and the log level is copied |
| `StartupConfig.NewAfterPort` | src/config.rs:60-78 | once the key and `PORT` checks pass: unset `POSTGRES_PASSWORD` panics, and only then; an invalid `POSTGRES_PORT` gives `Err(ParseError)`; unset `POSTGRES_PORT` yields the command line's database port unchanged; a valid one yields its value |
| `StartupConfig.NewSucceedsIff` | src/config.rs:46-80 | `Config::new` succeeds exactly when both API keys and the password are set and each port text present is a valid `u16` |
| `StartupConfig.NewIgnoresCliPortAndPassword` | src/config.rs:35-79 | the command line's `port` and `database_password` never change the outcome |

## Left out

- `dotenv::dotenv()` (src/config.rs:43): loading a `.env` file into the environment is I/O; the environment map is taken as already loaded.
- `Config::parse()` (src/config.rs:44): clap's command-line parsing and its defaults are a library call; its result is an input.
- `env::var` also fails when a value is not valid Unicode; the environment is modelled as strings only, so that case is not represented.
- The panic messages are not modelled; the `Panic` outcome records which variable was unset.
- The parse works on characters where Rust works on UTF-8 bytes; a non-ASCII character gives `InvalidDigit` either way, at the same point.
- How `handle_errors::Error` displays a `ParseError` is not part of this model, because that crate is not shown; `IntParse.Description` gives only the standard library's text for each kind, and nothing in the two modelled functions displays it.
- `handle_errors::Error` has more variants than the two built here (`DatabaseQueryError` at src/store.rs:50, `MigrationError` at src/main.rs:89); only `ParseError` and `MissingParameters` are modelled, because they are the only variants the two modelled files construct (src/types/pagination.rs:35,41,45; src/config.rs:58,78).
- src/main.rs repeats the `PORT` logic of src/config.rs:54-58 inside the server start-up; the server, routing, CORS, tracing and migrations are framework plumbing and are left out.
- src/store.rs, src/routes/, src/types/account.rs, mock-server/, src/bin/, example/ and examples/ are database access, HTTP handlers, password hashing through the argon2 crate, network mocks and async demos: I/O, foreign code or concurrency, not part of this model.
