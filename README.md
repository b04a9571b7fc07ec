# HTTP/1.1 status-line serialiser

This project models the response builder of a minimal HTTP/1.1 server
written in Go. In this draft of the server, `buildHttpResponse` takes a
status code, a reason phrase and a header list. When the header list is
empty it returns the wire string `HTTP/1.1 <status> <reason>` followed by
CRLF CRLF: an empty header block and no body. When the list is not empty
it refuses with a panic ("Headers are not yet supported").

The model has three modules:

- `Wrappers`: the `Option` and `Result` datatypes.
- `Decimal`: what Go's `%d` verb prints for an `int`, as `IntToDecimal`.
  It also has an independent reader, `ParseDecimal`, and round-trip laws in
  both directions.
- `Server`: `BuildHttpResponse`, the `CRLF` constant, an independent reader
  `ParseResponse` for the responses it produces, and the lemmas that state
  the exact layout of the output, the round trip and the one concrete
  response the program sends.

Modelling choices:

- The status is Go's `int`, taken as 64 bits wide (`Decimal.GoInt`).
- The panic on a non-empty header list is the result
  `Failure(HeadersNotSupported)`.
- The header list is a sequence of an arbitrary element type `H`. The code
  only tests its length, and `HeadersOnlyByLength` states that its contents
  never matter.

In this version the caller supplies the reason phrase, and any non-empty
header list is refused.

## Model

| member | source | states |
|---|---|---|
| `Decimal.NatToDecimal` | app/server.go:19 | the digits `%d` prints for a non-negative value: non-empty, decimal digits only, and a leading `0` exactly when the value is 0 |
| `Decimal.IntToDecimal` | app/server.go:19 | what `%d` prints for any integer: a canonical numeral that starts with `-` exactly when the value is negative, never `-0` |
| `Decimal.ParseDecimal` | app/server.go:19 | reference reader of numerals (optional `-`, then digits): anything it accepts is non-empty, and a negative result comes from a leading `-` |
| `Decimal.NatRoundTrip` | app/server.go:19 | reading back the digits printed for `n` gives `n` |
| `Decimal.DigitsRoundTrip` | app/server.go:19 | every canonical digit string is what gets printed for the number it denotes |
| `Decimal.DecimalRoundTrip` | app/server.go:19 | the status code can be recovered from its rendering: `ParseDecimal(IntToDecimal(n)) == Some(n)` |
| `Decimal.CanonicalRoundTrip` | app/server.go:19 | the converse: every canonical signed numeral is accepted by the reader and is re-printed unchanged |
| `Decimal.IntToDecimalInjective` | app/server.go:19 | two integers print the same numeral exactly when they are equal |
| `Decimal.NatDecimalLength` | app/server.go:19 | a value below 10^k is printed with at most k digits |
| `Decimal.GoIntDecimalLength` | app/server.go:14-19 | for a 64-bit `int` status, the numeral has at most 19 digits, or 20 characters with the sign |
| `Server.BuildHttpResponse` | app/server.go:12-20 | fails with `HeadersNotSupported` exactly when the header list is non-empty; on success the output starts with `HTTP/1.1 `, ends with CRLF CRLF, and is 9 + \|digits\| + 1 + \|reason\| + 4 characters long (bytes only for an ASCII reason, see below) |
| `Server.ParseResponse` | app/server.go:19 | reference reader of a header-less, body-less response: anything it accepts starts with `HTTP/1.1 ` and ends with CRLF CRLF |
| `Server.ResponseLayout` | app/server.go:19 | on success, the characters after the prefix up to the next space are exactly the `%d` numeral of the status; a single space follows; then the reason appears verbatim up to the final CRLF CRLF |
| `Server.ResponseRoundTrip` | app/server.go:19 | reading back any response built without headers recovers both the status code and the reason phrase |
| `Server.ResponseInjective` | app/server.go:19 | two header-less responses are equal exactly when their status codes and reason phrases are equal |
| `Server.HeadersOnlyByLength` | app/server.go:15-17 | two header lists of the same length give the same outcome, whatever they contain |
| `Server.OkResponse` | app/server.go:40 | the call made by `main` (status 200, reason `OK`, no headers) gives exactly `HTTP/1.1 200 OK\r\n\r\n` |

## Left out

- `main` (app/server.go:22-45): binding port 4221, accepting one connection, writing the response and `os.Exit`. This is socket I/O and process control.
- The `fmt.Println` log lines in `main`: they only produce output.
- `log.Panic` (app/server.go:16): its logging and Go's panic and unwind semantics are not modelled. The model keeps only the failed outcome.
- Go's `int` on 32-bit platforms: the model fixes `int` at 64 bits. On a 32-bit platform the bound in `GoIntDecimalLength` would be tighter, and nothing else would change.
- The elements of the header list: the code never reads them, so the model has no header type of its own.
- BuildHttpResponse: the reason and the output are Dafny strings (sequences of Unicode characters), while Go's `string` is a sequence of bytes that `%s` copies and the program sends as `[]byte`. A reason that is not valid UTF-8 cannot be represented, and the length in the contract counts characters, which equals the wire length in bytes only for ASCII (reason `é` is 1 character but 2 bytes).
