# op-validator: the grading and token core, in Dafny

op-validator grades a learner's answer to a programming challenge of
osprogramadores.com and, when the answer is right, hands back a token that
anyone holding the server secret can check later without the answer. This
project models the part of the Go server that decides things:

- `sanitize`, which canonicalises submitted and expected text (module `Canon`,
  on top of a model of Go's `strings.Trim`, `strings.Split` and
  `strings.Join` in module `GoStrings`);
- `findResult`, the first-match lookup in the challenge table (module `Registry`);
- `validKnightsD13`, the knight's-tour checker of challenge `desafio-13`
  (module `Knights`);
- `createToken`, the version-1 token `"1" + hex(MD5(username ++ secret ++ result))`
  (module `Tokens`);
- `customTester` and the decisions that `checkHandler` and
  `verifyTokenHandler` make, as pure functions `Check` and `Verify` over
  outcome datatypes (module `Pipeline`); `trimSlash` sits in `Canon`.

The step-by-step Go code stays step by step: `Sanitize` builds its list of
trimmed lines in a loop, `FindResult` scans the table with an early return,
`ValidKnightsD13` runs the source's four loops with their early returns,
and `CreateToken` writes three strings into a `HashState` object. Each of
these methods is proved equal to a specification function (`Canonical`,
`Lookup`, `Verdict`, `TokenOf`), and the properties are proved about those
functions.

Modelling choices:

- A Go string is a sequence of bytes; here it is a `string`, one `char` per
  byte. Every byte the core inspects is ASCII (the cut set `"\n\t\r "`, the
  newline separator, the letters `a`..`h` and digits `1`..`8`), so on UTF-8
  input the decisions are the same.
- MD5 is a parameter `md5: string -> Digest`, any function to 16 bytes.
  Everything around it is modelled: the order of the three writes, the
  lowercase hex of `%x`, the version prefix, the 33-character length.
- A Go run-time panic is the outcome `Panic` (`Wrappers.Outcome`).
  `validKnightsD13` reads `step[0]` and `step[1]` without checking the
  line's length (d13.go:28). An empty line, or a one-byte line whose byte is
  a file letter, therefore panics. `sanitize` keeps interior empty lines, so
  this is reachable from a request (`Pipeline.CheckCanPanic`). `checkHandler`
  calls `customTester` before it looks the challenge up, so `Check` panics
  before it could report an unknown challenge.
- In four places the Go code does not do what the validator is meant to
  do. The model follows the code:
  - A knight's-tour answer is meant to be judged by the checker's verdict
    alone. In the code, the marker that `customTester` returns is compared
    with the configured expected output. `Check` follows the code.
    `Pipeline.KnightsChallengeValid` states the outcome when the table
    expects `"validKnightsD13"`.
  - Nothing on the request path is meant to panic. The code can panic, as
    described above.
  - A tour is meant to visit 64 different squares. The code compares whole
    lines, and only the first two bytes of each line are looked at. So
    `"a1"` and `"a1x"` are different lines that name the same square
    (`Knights.ExtraBytesIgnored`, `Knights.SameSquareDifferentLines`). The
    64 lines are a permutation of the board only when every line is exactly
    two bytes long (`Knights.TourCoversBoard`).
  - A token is meant to be accepted only exactly as issued.
    `verifyTokenHandler` canonicalises the token before comparing it
    (main.go:88), so the issued token with blanks or newlines around it is
    accepted too (`Pipeline.PaddedTokenAccepted`). Changing any one
    character of the token itself still gets it refused
    (`Pipeline.MutatedTokenRejected`).

## Model

| member | source | states |
|---|---|---|
| `Canon.Sanitize` | main.go:138-150 | the loop's result is the canonical form: the text trimmed of `\n\t\r `, split on newlines, every line trimmed, none dropped, joined again; it has no blank at either end |
| `Canon.CanonicalEdges` | main.go:139-149 | the canonical text neither starts nor ends with a newline, tab, carriage return or space |
| `Canon.CanonicalIdempotent` | main.go:138-150 | canonicalising twice is canonicalising once |
| `Canon.CanonicalLines` | main.go:143-149 | the lines of the canonical text are exactly the trimmed lines of the outer-trimmed input: as many, in order, each without blank ends |
| `Canon.CanonicalKeepsBlankLines` | main.go:146-148 | a line of the outer-trimmed input becomes an empty line (it is kept, not dropped) exactly when it is all blanks |
| `Canon.CanonicalOfJoin` | main.go:143-149 | newline-free lines without blank ends, joined with no blank at the text's ends, are already canonical |
| `Canon.CanonicalEmpty` | main.go:142-149 | the empty text is canonical: `sanitize("") == ""` |
| `Canon.CanonicalExample` | main.go:142-149 | `" a\n \t\nb \r\n"` canonicalises to `"a\n\nb"`: edges trimmed, the interior blank line kept empty |
| `Canon.CanonicalIgnoresEdgeBlanks` | main.go:141-142 | blanks and newlines added before or after a text do not change its canonical form |
| `Canon.CanonicalTrimsLines` | main.go:141-149 | trimming the whole text and then every line gives the same text as trimming every line and then the whole text |
| `Canon.CanonicalIgnoresLineEdgeBlanks` | main.go:143-149 | two texts whose lines agree once each is trimmed have the same canonical form: blanks at the ends of any line do not matter |
| `Canon.TrimSlash` | main.go:129-134 | with a trailing `/` the result plus `/` is the input; otherwise the input comes back unchanged |
| `Canon.TrimSlashAppend` | main.go:129-134 | trimming a slash appended to any string gives that string back |
| `Canon.TrimSlashNotIdempotent` | main.go:129-134 | only one slash goes: `"//"` becomes `"/"`, and trimming again gives `""` |
| `GoStrings.Split` | d13.go:10-11 | `strings.Split` on newlines returns at least one piece and no piece holds a newline, so reading the first line before the length test is safe |
| `GoStrings.Trim` | main.go:142 | the result of `strings.Trim` with the cut set `"\n\t\r "` neither starts nor ends with a blank |
| `GoStrings.Join` | main.go:149 | the joined text holds a newline exactly when two or more pieces are joined or some piece holds one |
| `GoStrings.TrimInfix` | main.go:142 | what `strings.Trim` keeps is an infix of the input, and everything removed before and after it is blank |
| `GoStrings.TrimIdempotent` | main.go:147 | trimming a trimmed line changes nothing |
| `GoStrings.JoinSplit` | main.go:143 | joining the pieces of `strings.Split(s, "\n")` with newlines gives `s` back |
| `GoStrings.SplitJoin` | main.go:149 | splitting a newline join of newline-free pieces gives the pieces back |
| `GoStrings.TrimIgnoresEdgeBlanks` | main.go:142 | blanks around a text do not change what `strings.Trim` returns |
| `Registry.Lookup` | main.go:119-126 | finds an entry iff some entry's name equals the name exactly; the entry found is the first one with that name |
| `Registry.FindResult` | main.go:119-126 | the scan returns true iff some entry has the name, and then the first such entry; otherwise the zero `Result` and false |
| `Registry.LookupShadows` | main.go:120-124 | entries after the first match never change the answer, so a later duplicate name is shadowed |
| `Knights.LimitTest` | d13.go:27-31 | a line passes the board-limits test iff its first byte is `a`..`h` and its second `1`..`8`; it panics iff it is empty, or one byte long and that byte is `a`..`h` |
| `Knights.FirstOffBoard` | d13.go:27-31 | the index the board-limits loop stops at: every earlier line is on the board, and the line there is not |
| `Knights.ValidKnightsD13` | d13.go:8-62 | the method with its four loops and early returns decides exactly `Verdict` of the input's lines, panic included |
| `Knights.VerdictAccepts` | d13.go:14-61 | the checker accepts iff there are 64 lines, all different, all on the board, each consecutive pair a knight's move apart |
| `Knights.VerdictRejects` | d13.go:14-58 | each test rejects on its own, in the source's order: wrong line count, a repeated line, an off-board line of two or more bytes, a bad move |
| `Knights.VerdictPanics` | d13.go:28 | the checker panics iff 64 different lines reach the board-limits loop and the first line failing it is too short for the byte it reads |
| `Knights.ShortLinePanics` | d13.go:26-31 | an empty or one-letter line reached by the board-limits loop makes the checker panic, not return false |
| `Knights.KnightMoveShapes` | d13.go:32-58 | the move test (file distance 1 or 2, distances adding up to 3) accepts exactly the distance pairs (1,2) and (2,1) |
| `Knights.ExtraBytesIgnored` | d13.go:28-58 | lengthening a line of an accepted solution keeps it accepted while the lines stay different: bytes after the second are never read |
| `Knights.SameSquareDifferentLines` | d13.go:18-31 | `"a1"` and `"a1x"` are different lines that both pass the board test and name the same square |
| `Knights.TourCoversBoard` | d13.go:7-61 | if the checker accepts and every line is two bytes long, the lines are the 64 squares, each once, consecutive ones a knight's move apart |
| `Tokens.TokenOf` | main.go:166-174 | a token is 33 characters: `'1'` followed by 32 lowercase hex digits |
| `Tokens.Hex` | main.go:173 | `%x` prints two characters per byte, each a lowercase hex digit |
| `Tokens.CreateToken` | main.go:166-174 | writing username, secret and result into one MD5 state and printing `"1%x"` gives `TokenOf` of the three |
| `Tokens.HashState.WriteString` | main.go:168-170 | each write appends its text to what the hash state has consumed |
| `Tokens.HashState.constructor` | main.go:167 | a new MD5 state (`md5.New()`) has consumed nothing |
| `Tokens.HashState.Sum` | main.go:173 | `h.Sum(nil)` is MD5 of everything written to the state so far |
| `Tokens.UnhexHex` | main.go:173 | the `%x` encoding of the digest decodes back to the same bytes |
| `Tokens.TokenDigest` | main.go:167-173 | the hex part of a token decodes to MD5 of username ++ secret ++ result |
| `Tokens.TokenInjective` | main.go:167-173 | tokens built from different digests differ |
| `Pipeline.CustomTester` | main.go:154-162 | for `desafio-13` it reports `"validKnightsD13"` iff the lines form a tour, panics iff the checker panics, and otherwise reports `"notValidSolution"`; every other solution passes through unchanged |
| `Pipeline.Check` | main.go:53-80 | panics iff `customTester` panics; otherwise an unknown challenge is refused; otherwise valid iff the tested solution equals the canonical expected output, with the token over the canonical username and that output, and an empty token when not valid |
| `Pipeline.Verify` | main.go:84-115 | refuses empty canonical id, username or token, then an unknown challenge; accepts iff the canonical token equals the token built from the canonical username and expected output |
| `Pipeline.TokenIsCanonical` | main.go:88 | a token has no blank character, so `sanitize` leaves it unchanged |
| `Pipeline.IssuedTokenVerifies` | main.go:73 | a token that Check issues is accepted by Verify for the same challenge and username, when both are non-empty |
| `Pipeline.IssuedTokenVerifiesCanonical` | main.go:106 | Verify also accepts that token when given the already canonical id and username |
| `Pipeline.MutatedTokenRejected` | main.go:88-113 | an issued token with any one character changed is not accepted by Verify |
| `Pipeline.PaddedTokenAccepted` | main.go:88 | an issued token with blanks or newlines before or after it is accepted by Verify |
| `Pipeline.AnyTourSameToken` | main.go:57-73 | with `"validKnightsD13"` as the configured output, every knight's tour gets the same valid reply for a user, its token binding the marker rather than the path |
| `Pipeline.DefaultChallengeCompares` | main.go:67-71 | for a known challenge other than `desafio-13`, the reply is valid iff the canonical solution equals the canonical expected output |
| `Pipeline.KnightsChallengeValid` | main.go:155-159 | with `"validKnightsD13"` as the configured output, a `desafio-13` solution is valid iff its lines form a tour |
| `Pipeline.CheckCanPanic` | d13.go:28 | some canonical solution, 64 different lines with an empty second line, makes checkHandler panic whatever the table holds |
| `Pipeline.CheckIgnoresEdgeBlanks` | main.go:57 | blanks around the submitted solution do not change the reply |
| `Pipeline.SampleAccepted` | main.go:67-73 | with "c1" expecting "42", the solution `"  42\n"` is valid and its token binds "42" |
| `Pipeline.SampleRejected` | main.go:71-76 | with "c1" expecting "42", the solution "43" is not valid and gets an empty token |
| `Pipeline.SampleUnknown` | main.go:60-64 | challenge "c99", absent from the table, is refused |

## Left out

- HTTP plumbing: `rootHandler` and its template (main.go:43-48), form decoding, `http.Error`, the JSON text written by `fmt.Fprintf`, every `log` call, handler registration and `ListenAndServe` in `main` (main.go:176-222). `Check` and `Verify` return outcome values in place of the replies.
- What `net/http` does after a handler panics (recovering it and dropping the connection) is outside the model; `Check` only reports `Panicked`.
- `parseConfig` (config.go:29-45): a thin wrapper over the TOML decoder and `ioutil.ReadAll`; the table and the secret are parameters of `Check` and `Verify`.
- The configuration fields `BaseURL`, `TemplatesDir` and `Port` read by `main` are start-up wiring and are not modelled.
- MD5's internals: the hash is a parameter. Collision resistance cannot be proved. So the claim that a token issued to one user is refused for another is not modelled. `Tokens.TokenInjective` proves only that different digests give different tokens.
- Concurrency between requests: the handlers only read shared data.
- Go strings as bytes: the model has one `char` per byte and does not model UTF-8 encoding.
