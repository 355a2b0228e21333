# mathreleaser, modelled in Dafny

A model of the core of `mathreleaser`, a command-line calculator written in Go.
One run reads a `-version` flag, an `-op` name (default `add`) and one or two
numeric arguments. It prints a result line whose number is rendered with two
decimals and thousands commas, or it prints usage text or an `Error: ...` line.
It exits 0 or 1, or 2 when formatting panics.

| file | module | models |
|---|---|---|
| `wrappers.dfy` | `Wrappers` | `Option` and `Result`, for Go's `(value, error)` returns and for panics |
| `strings.dfy` | `Strings` | Go's `strings.Split` with a one-character separator. Also `Join` (its inverse), `Contains`, `StartsWith`, and deleting or counting a character |
| `helpers.dfy` | `Helpers` | `FormatNumber` (internal/helpers/helpers.go). It starts from the `%.2f` rendering and has the comma-grouping loop both as a function and as a method |
| `calculator.dfy` | `Calculator` | `Add`, `Subtract`, `Multiply`, `Divide` (pkg/calculator/calculator.go) over `real` |
| `version.dfy` | `Version` | the build metadata as a `BuildInfo` record, plus `Info`, `ShortInfo`, the defaults and the platform string (pkg/version/version.go) |
| `mathreleaser.dfy` | `MathReleaser` | `mainInternal` (cmd/mathreleaser/main.go) as the pure function `Run`. It maps the parsed command line to an `Outcome`: version text, usage lines, a stderr error line, a result line, or a panic. Each outcome has an output stream and an exit code (`Outcome.ExitCode`): 0 for the version block or a result line, 1 exactly when `osExit` is called, 2 for a panic |

How the pieces relate:
- The comma-grouping loop is written as Go writes it. `GroupPrefix` and `FormatNumberLoop` insert a comma before index `i` when `i > 0 && (len - i) % 3 == 0`.
- It is proved equal to an independent reference, `ThreeFromRight`, which groups three characters at a time from the right.
- Every grouping property is proved about that reference.
- `Run` takes the routines whose source is not part of this model as fields of a `Runtime` record:
  - `strconv.ParseFloat`;
  - the calculator's `Power`, `SquareRoot`, `Sin`, `Cos`, `Tan` and `Random`;
  - the `%.2f` rendering.
- So every property of `Run` holds whatever those routines compute.
- Where a property says that something is "never examined", it is stated as "the outcome is the same for any runtime that agrees on what was examined".

Behaviour of the code that the model keeps as written:
- **The minus sign is grouped.** `FormatNumber` is documented as formatting a number with comma separators for thousands (internal/helpers/helpers.go:10). But the sign is part of the integer part and counts toward its length. So `-1234.56` gives `-1,234.56`, while `-123.45` gives `-,123.45` (`Helpers.MinusSignGrouped`, `Helpers.FormatCasesHold`).
- **Non-finite results panic.** `%.2f` renders `+Inf`, `-Inf` and `NaN` without a '.', so `parts[1]` at internal/helpers/helpers.go:14 is out of range. `FormatNumber` returns `None` there, and `Run` returns `Panicked`: a Go run-time panic, exit status 2, with no `osExit` call (`Helpers.NonFiniteRenderingsPanic`, `MathReleaser.InfiniteProductPanics`).
- **The version block has five lines.** `Info` prints five labelled lines: Version, Git Commit, Build Date, Go Version and Platform.

## Model

| member | source | states |
|---|---|---|
| `Strings.Split` | internal/helpers/helpers.go:12 | Splitting at '.' as `strings.Split` does. There is always at least one piece, and exactly one when the separator is absent. No piece holds the separator, and joining the pieces with it gives the input back |
| `Helpers.FormatNumber` | internal/helpers/helpers.go:11-25 | The result is a panic (`None`) exactly when the rendering has no '.'. Otherwise it is the text before the first '.' grouped three from the right, then '.', then Go's `parts[1]`: the text between the first '.' and the second one, or the end |
| `Helpers.FormatNumberLoop` | internal/helpers/helpers.go:16-24 | The imperative loop (append ',' when `i > 0 && (len-i)%3 == 0`, then the character) computes the same result as `FormatNumber`. The loop invariant says the result so far is the first `i` iterations' output |
| `Helpers.GroupedIsThreeFromRight` | internal/helpers/helpers.go:17-21 | The loop's modulo test puts commas exactly where grouping by threes from the right does, for every input |
| `Helpers.OnlyCommasAdded` | internal/helpers/helpers.go:16-21 | Deleting every ',' from the grouped integer part gives it back unchanged, so only commas are added |
| `Helpers.CommaCount` | internal/helpers/helpers.go:17-21 | A part of length L >= 1 gains exactly (L-1)/3 commas, and the output is that much longer |
| `Helpers.CommaPositions` | internal/helpers/helpers.go:17-21 | Output position j holds a comma exactly when it is a multiple of four from the end. So all groups after the first have three characters, and the first has one to three |
| `Helpers.FirstCharacterKept` | internal/helpers/helpers.go:18 | The first output character is the first input character, so no comma comes first (the `i > 0` guard) |
| `Helpers.LeadingCharacterGrouped` | internal/helpers/helpers.go:13-21 | A leading character such as '-' is grouped like a digit. It gets its own comma exactly when the rest has a multiple of three characters |
| `Helpers.FormatFixed` | internal/helpers/helpers.go:12-24 | For a `%.2f` rendering (optional '-', digits, '.', two digits), the output is the grouped integer part, then '.', then the two decimals unchanged |
| `Helpers.OnlyCommasInserted` | internal/helpers/helpers.go:12-24 | For any rendering with one '.' and no ',', the call succeeds, and deleting every ',' from its output gives the rendering back exactly |
| `Helpers.ShortRenderingUnchanged` | internal/helpers/helpers.go:17-24 | A rendering whose integer part has at most three characters is returned unchanged |
| `Helpers.MinusSignGrouped` | internal/helpers/helpers.go:13-21 | `-digits.dd` formats as `-,` plus the grouped digits when the digit count is a multiple of three, and as `-` plus the grouped digits otherwise |
| `Helpers.FormatCasesHold` | internal/helpers/helpers_test.go:23-33 | Each tested rendering gives the expected output (for example `1234567890.12` gives `1,234,567,890.12`), and `-123.45` gives `-,123.45` |
| `Helpers.NonFiniteRenderingsPanic` | internal/helpers/helpers.go:12-14 | The renderings `+Inf`, `-Inf` and `NaN` have no '.', so `parts[1]` panics |
| `Calculator.Add` | pkg/calculator/calculator.go:7-9 | Subtracting the second operand from the sum gives the first back (`Calculator.AddSubtractInverse` states both directions) |
| `Calculator.Subtract` | pkg/calculator/calculator.go:12-14 | Adding the second operand back to the difference gives the first |
| `Calculator.Multiply` | pkg/calculator/calculator.go:17-19 | The product is 0 exactly when a factor is 0, and dividing it by a non-zero second factor gives the first |
| `Calculator.Divide` | pkg/calculator/calculator.go:22-28 | An error is returned exactly when the divisor is 0, with value 0 and message "division by zero". Otherwise the quotient times the divisor is the dividend |
| `Calculator.AddSubtractInverse` | pkg/calculator/calculator.go:7-14 | `Subtract` undoes `Add`, and `Add` undoes `Subtract` |
| `Calculator.MultiplyDivideInverse` | pkg/calculator/calculator.go:17-28 | Dividing a product by a non-zero factor gives the other factor and no error |
| `Calculator.CalculatorExamples` | pkg/calculator/calculator_test.go:13-81 | All seventeen tested cases hold: four each for `Add`, `Subtract` and `Multiply`, and five for `Divide`, including (5,0) giving value 0 and "division by zero" |
| `Version.Info` | pkg/version/version.go:29-38 | The version block is the five "Label: value" lines joined by line breaks, with no final one, in the order Version, Git Commit, Build Date, Go Version, Platform (`Version.InfoLines` and `Version.InfoRoundTrip` read it back) |
| `Version.InfoLines` | pkg/version/version.go:29-38 | When no field has a line break, splitting `Info` at line breaks gives exactly those five labelled lines |
| `Version.InfoRoundTrip` | pkg/version/version.go:29-38 | When no field has a line break, reading the five labelled lines back from `Info` recovers every field |
| `Version.InfoContainsEachField` | pkg/version/version_test.go:38-52 | `Info` contains each "Label: value" substring, whatever the fields hold |
| `Version.ShortInfo` | pkg/version/version.go:41-43 | When the version has no '(', reading the condensed string back (a 'v', text up to " (", text up to the final ")") recovers version and commit |
| `Version.PlatformRoundTrip` | pkg/version/version.go:25 | The platform is the OS, then '/', then the architecture. Splitting at '/' gives the two back |
| `Version.Defaults` | pkg/version/version.go:11-26 | Without injected metadata the version is 0.4.0, commit and build date are "unknown", the Go version is the runtime's, and splitting the platform at '/' gives the OS and architecture back |
| `Version.DefaultLines` | pkg/version/version.go:13-19 | Without injected metadata, the version lines read "Version: 0.4.0", "Git Commit: unknown" and "Build Date: unknown", followed by the runtime's Go version and platform |
| `Version.DefaultsReported` | pkg/version/version.go:13-43 | Without injected metadata, `ShortInfo` is "v0.4.0 (unknown)" and `Info` splits into the default lines |
| `Version.VersionExamples` | pkg/version/version_test.go:80-90 | `ShortInfo` of version 1.2.3 and commit abcdef123456 is "v1.2.3 (abcdef123456)" |
| `Version.PlatformExample` | pkg/version/version_test.go:100 | darwin/amd64 is the platform of darwin and amd64 |
| `MathReleaser.LookupOp` | cmd/mathreleaser/main.go:41-82 | An `-op` value selects an operation exactly when it is that operation's name. Every other value falls to the `default` branch |
| `MathReleaser.ErrorLine` | cmd/mathreleaser/main.go:49-132 | Every line built by `ErrorLine` starts with "Error: ". These are all the messages `mainInternal` writes to stderr itself; a panic's report comes from the Go runtime and is not one of them |
| `MathReleaser.Evaluate` | cmd/mathreleaser/main.go:88-128 | Only divide and sqrt can fail. Divide fails exactly when the second operand is 0, with "division by zero". Each operation computes its own value with the operands in command-line order: the sum (minus b gives a), the difference (plus b gives a), the product a·b, and the quotient (times b gives a). Power and random get (a, b), and sqrt, sin, cos and tan get a, each from its own routine |
| `MathReleaser.Run` | cmd/mathreleaser/main.go:22-134 | From the inputs: the run exits 0 exactly when `-version` is set or the name is known, the argument count right, the operands parse, the calculator call succeeds and its rendering has a '.'. It shows a result line exactly in the second case, panics (exit 2) exactly when that rendering has no '.', and calls `osExit(1)` in every other case. The lemmas below give each branch's exact output |
| `MathReleaser.VersionFlagWins` | cmd/mathreleaser/main.go:31-34 | With `-version`, the outcome is the version block with exit 0, whatever the op and arguments. It does not depend on the runtime, so nothing is parsed or computed |
| `MathReleaser.ArityChecked` | cmd/mathreleaser/main.go:41-67 | A known op with the wrong argument count prints its arity's usage (binary or unary) and exits 1, without parsing anything |
| `MathReleaser.UnknownOperation` | cmd/mathreleaser/main.go:74-81 | An unknown op prints the three-line usage when there are no arguments. Otherwise it prints "Error: Unknown operation: <op>" (lines 129-132). Both exit 1 and nothing is parsed |
| `MathReleaser.EmptyNameUnknown` | cmd/mathreleaser/no_op_empty_args_test.go:16-27 | The empty `-op=` value names no operation. With no arguments it prints the three-line usage and exits 1 |
| `MathReleaser.FirstOperandParsedFirst` | cmd/mathreleaser/main.go:49-54 | A first operand that fails to parse gives "Error parsing first number: ...". The second argument is never examined |
| `MathReleaser.SecondOperandError` | cmd/mathreleaser/main.go:55-60 | A parsed first operand and an unparsable second one give "Error parsing second number: ..." |
| `MathReleaser.UnaryOperandError` | cmd/mathreleaser/main.go:68-73 | A unary op whose operand fails to parse gives "Error parsing number: ..." |
| `MathReleaser.DivisionByZeroReported` | cmd/mathreleaser/main.go:98-104 | Divide by a second operand that parses to 0 prints "Error: Error performing division: division by zero" with exit 1, and no result line |
| `MathReleaser.InfiniteProductPanics` | cmd/mathreleaser/main.go:95-97 | A multiply whose product renders as "+Inf" panics in `FormatNumber`: exit 2, and `osExit` is not called |
| `MathReleaser.SquareRootErrorReported` | cmd/mathreleaser/main.go:109-115 | A square-root error is printed as "Error: Error performing square root: <error>" |
| `MathReleaser.InfixResultLine` | cmd/mathreleaser/main.go:89-108 | Add, subtract, multiply, divide (by non-zero) or power print "<arg1> <sym> <arg2> = <formatted>" with exit 0, where sym is one of + - * / ^. The raw argument strings are echoed. `formatted` is `FormatNumber` of the rendering of `Add(a, b)`, `Subtract(a, b)`, `Multiply(a, b)`, `Divide(a, b)` or `Power(a, b)` |
| `MathReleaser.PrefixResultLine` | cmd/mathreleaser/main.go:109-125 | A successful sqrt, sin, cos or tan prints "<name>(<arg>) = <formatted>" with exit 0. `formatted` is `FormatNumber` of the rendering of `SquareRoot(a)`, `Sin(a)`, `Cos(a)` or `Tan(a)` respectively |
| `MathReleaser.RandomResultLine` | cmd/mathreleaser/main.go:126-128 | Random prints "random(<arg1>, <arg2>) = <formatted>" |
| `MathReleaser.OutcomeDiscipline` | cmd/mathreleaser/main.go:43-132 | On every run, an error is one "Error: " line on stderr and usage text has at least two lines, the first starting with "Usage: ". Which inputs lead to which outcome and exit status is stated by `MathReleaser.Run` |
| `MathReleaser.UsageTexts` | cmd/mathreleaser/main.go:44-78 | Each usage text has at least two lines, and the first begins "Usage: " |
| `MathReleaser.DefaultOperationAdds` | cmd/mathreleaser/main.go:25 | With no `-op`, the arguments `5 3` print "5 + 3 = 8.00". This assumes `ParseFloat` reads 5 and 3 and `%.2f` renders 8 as "8.00" |
| `MathReleaser.SubtractExample` | cmd/mathreleaser/main_test.go:143-160 | `-op=subtract 10 4` prints "10 - 4 = 6.00", given the parses and the rendering of 6 |
| `MathReleaser.MultiplyExample` | cmd/mathreleaser/main_test.go:163-180 | `-op=multiply 6 7` prints "6 * 7 = 42.00", given the parses and the rendering of 42 |
| `MathReleaser.DivideExample` | cmd/mathreleaser/main_test.go:183-200 | `-op=divide 20 5` prints "20 / 5 = 4.00", given the parses and the rendering of 4 |
| `MathReleaser.PowerExample` | cmd/mathreleaser/main_test.go:203-220 | `-op=power 2 3` prints "2 ^ 3 = 8.00", given that `Power(2, 3)` is 8 |
| `MathReleaser.SquareRootExample` | cmd/mathreleaser/main_test.go:223-240 | `-op=sqrt 16` prints "sqrt(16) = 4.00", given that `SquareRoot(16)` is 4 |
| `MathReleaser.SineExample` | cmd/mathreleaser/main_test.go:243-260 | `-op=sin 0` prints "sin(0) = 0.00", given that `Sin(0)` is 0 |
| `MathReleaser.CosineExample` | cmd/mathreleaser/main_test.go:263-280 | `-op=cos 0` prints "cos(0) = 1.00", given that `Cos(0)` is 1 |

## Left out

- The `%.2f` float-to-decimal rendering (internal/helpers/helpers.go:12) is left out, with all float64 behaviour: rounding, -0, overflow, Inf and NaN. `FormatNumber` starts from the rendered string, and `Run` takes the rendering as `Runtime.render`.
- The loop reads the integer part rune by rune and appends `byte(c)`. This is modelled character by character, which is the same for the ASCII text `%.2f` produces.
- Flag parsing with the `flag` package is left out (cmd/mathreleaser/main.go:24-28, 37). This includes `--` and arguments that look like flags. `Run` receives the `-version` value, the `-op` value and the positional arguments already parsed.
- `strconv.ParseFloat` is not part of this model. It is `Runtime.parseFloat`, and its error text is whatever that returns.
- `Power`, `SquareRoot`, `Sin`, `Cos`, `Tan` and `Random` are called by main.go but their source is not part of this model. They are runtime fields with no assumed behaviour, so nothing is stated about their values or errors.
- Console writes, `osExit` and the `mainInternalFunc` indirection are left out (cmd/mathreleaser/main.go:16-19, 136-138). The `Outcome` value records what would be written, to which stream, and the exit status.
- `PrintError` and `EnsureDir` are left out (internal/helpers/helpers.go:27-36). They are process exit and filesystem access.
- The runtime reads of `GoVersion` and `Platform` are left out (pkg/version/version.go:22-25). They become parameters: the Go version, the OS and the architecture are passed to `Version.Defaults`.
- `Calculator.Divide`: the division is exact over `real`, without float64 rounding. The same holds for `Add`, `Subtract` and `Multiply`, so the inverse lemmas hold here but not always for float64.
- `Version.ShortInfo` states its read-back only when the version has no '(', and `Version.InfoRoundTrip` only when no field has a line break. Both strings are built for all fields.
- `Helpers.OnlyCommasInserted` needs exactly one '.'. With more than one, the code drops everything after the second '.', and `FormatNumber` models that as well.
