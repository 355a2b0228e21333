/** cmd/mathreleaser/main.go: `mainInternal` as a pure function from the
    parsed command line (the `-version` flag, the `-op` value and the
    positional arguments) to what the program prints and how it exits.

    The standard-library and calculator routines whose source is not part
    of this model are fields of a `Runtime` record, so every property below
    holds whatever they compute. */
module MathReleaser {
  import opened Wrappers
  import opened Strings
  import Calculator
  import Helpers
  import Version

  /** The operations the two switches of `mainInternal` recognise. */
  datatype Op = Add | Subtract | Multiply | Divide | Power | Random | Sqrt | Sin | Cos | Tan

  /** The `-op` value that selects each operation. */
  function OpName(op: Op): string
  {
    match op
    case Add => "add"
    case Subtract => "subtract"
    case Multiply => "multiply"
    case Divide => "divide"
    case Power => "power"
    case Random => "random"
    case Sqrt => "sqrt"
    case Sin => "sin"
    case Cos => "cos"
    case Tan => "tan"
  }

  /** The case labels of the switch on `-op`: the operation a value names,
      or `None` for the `default` branch. */
  function LookupOp(name: string): (r: Option<Op>)
    ensures forall op :: r == Some(op) <==> OpName(op) == name
  {
    if name == "add" then Some(Add)
    else if name == "subtract" then Some(Subtract)
    else if name == "multiply" then Some(Multiply)
    else if name == "divide" then Some(Divide)
    else if name == "power" then Some(Power)
    else if name == "random" then Some(Random)
    else if name == "sqrt" then Some(Sqrt)
    else if name == "sin" then Some(Sin)
    else if name == "cos" then Some(Cos)
    else if name == "tan" then Some(Tan)
    else None
  }

  /** The default of the `-op` flag. */
  const DefaultOp := "add"

  /** The operations that take two operands; the others take one. */
  predicate IsBinary(op: Op)
  {
    op in {Add, Subtract, Multiply, Divide, Power, Random}
  }

  function Arity(op: Op): nat
  {
    if IsBinary(op) then 2 else 1
  }

  /** The infix symbol printed for the binary operations other than random. */
  function Symbol(op: Op): string
  {
    match op
    case Add => "+"
    case Subtract => "-"
    case Multiply => "*"
    case Divide => "/"
    case _ => "^"
  }

  /** The usage texts, one string per printed line. */
  const BinaryUsage: seq<string> := [
    "Usage: " + "mathreleaser -op=[add|subtract|multiply|divide|power|random] <number1> <number2>",
    "       mathreleaser -version"]

  const UnaryUsage: seq<string> := [
    "Usage: " + "mathreleaser -op=[sqrt|sin|cos|tan] <number>",
    "       mathreleaser -version"]

  const CombinedUsage: seq<string> := [
    "Usage: " + "mathreleaser -op=[add|subtract|multiply|divide|power|random] <number1> <number2>",
    "       mathreleaser -op=[sqrt|sin|cos|tan] <number>",
    "       mathreleaser -version"]

  /** The routines `mainInternal` calls whose source is not part of this
      model: `strconv.ParseFloat` (an error carries the text `%v` prints),
      the calculator's Power, SquareRoot, Sin, Cos, Tan and Random, and the
      `%.2f` rendering that `FormatNumber` starts from. */
  datatype Runtime = Runtime(
    parseFloat: string -> Result<real, string>,
    power: (real, real) -> real,
    squareRoot: real -> Result<real, string>,
    sin: real -> real,
    cos: real -> real,
    tan: real -> real,
    random: (real, real) -> real,
    render: real -> string)

  datatype Stream = Stdout | Stderr

  /** Everything one run does: what it prints, where, and how it ends. */
  datatype Outcome =
      /** `version.Info()` on stdout; `mainInternal` returns normally. */
    | VersionShown(text: string)
      /** Usage lines on stdout, then `osExit(1)`. */
    | UsageShown(lines: seq<string>)
      /** One "Error: ..." line on stderr, then `osExit(1)`. */
    | ErrorReported(line: string)
      /** One result line on stdout; `mainInternal` returns normally. */
    | ResultShown(line: string)
      /** `FormatNumber` indexed past the end of its split: a Go run-time
          panic, which ends the process with status 2. */
    | Panicked
  {
    function OutputStream(): Stream
    {
      if ErrorReported? || Panicked? then Stderr else Stdout
    }

    /** Whether `mainInternal` calls `osExit`; it does so at most once,
        because every call is followed by `return`. */
    predicate CallsOsExit()
    {
      UsageShown? || ErrorReported?
    }

    /** The process exit status: 0 after the version block or a result
        line, 1 exactly when `osExit` is called, 2 after a panic. */
    function ExitCode(): (code: nat)
      ensures code == 0 <==> VersionShown? || ResultShown?
      ensures code == 1 <==> CallsOsExit()
      ensures code == 2 <==> Panicked?
    {
      if CallsOsExit() then 1 else if Panicked? then 2 else 0
    }
  }

  /** A line for stderr: every error message of `mainInternal` starts with
      "Error: ". */
  function ErrorLine(message: string): (line: string)
    ensures StartsWith(line, "Error: ")
  {
    assert ("Error: " + message)[..7] == "Error: ";
    "Error: " + message
  }

  /** The calculator call of the second switch: `Failure` carries the
      message of a returned error. */
  function Evaluate(rt: Runtime, op: Op, a: real, b: real): (r: Result<real, string>)
    ensures r.Failure? ==> op == Divide || op == Sqrt
    ensures op == Divide ==> (r.Failure? <==> b == 0.0)
    ensures op == Divide && r.Failure? ==> r.error == Calculator.DivisionByZero
    // the calculator routines take the operands in command-line order
    ensures op == Add ==> r.Success? && r.value - b == a
    ensures op == Subtract ==> r.Success? && r.value + b == a
    ensures op == Multiply ==> r.Success? && r.value == a * b
    ensures op == Divide && r.Success? ==> r.value * b == a
    ensures op == Power ==> r == Success(rt.power(a, b))
    ensures op == Random ==> r == Success(rt.random(a, b))
    ensures op == Sqrt ==> r == rt.squareRoot(a)
    ensures op == Sin ==> r == Success(rt.sin(a))
    ensures op == Cos ==> r == Success(rt.cos(a))
    ensures op == Tan ==> r == Success(rt.tan(a))
  {
    match op
    case Add => Success(Calculator.Add(a, b))
    case Subtract => Success(Calculator.Subtract(a, b))
    case Multiply => Success(Calculator.Multiply(a, b))
    case Divide =>
      var q := Calculator.Divide(a, b);
      if q.err.Some? then Failure(q.err.value) else Success(q.value)
    case Power => Success(rt.power(a, b))
    case Sqrt => rt.squareRoot(a)
    case Sin => Success(rt.sin(a))
    case Cos => Success(rt.cos(a))
    case Tan => Success(rt.tan(a))
    case Random => Success(rt.random(a, b))
  }

  /** The part of the result line before the formatted number; it echoes
      the argument strings as the user typed them. */
  function Echo(op: Op, args: seq<string>): string
    requires |args| == Arity(op)
  {
    match op
    case Add => args[0] + " + " + args[1] + " = "
    case Subtract => args[0] + " - " + args[1] + " = "
    case Multiply => args[0] + " * " + args[1] + " = "
    case Divide => args[0] + " / " + args[1] + " = "
    case Power => args[0] + " ^ " + args[1] + " = "
    case Sqrt => "sqrt(" + args[0] + ") = "
    case Sin => "sin(" + args[0] + ") = "
    case Cos => "cos(" + args[0] + ") = "
    case Tan => "tan(" + args[0] + ") = "
    case Random => "random(" + args[0] + ", " + args[1] + ") = "
  }

  /** The second switch, once the operands are parsed. */
  function Perform(rt: Runtime, op: Op, args: seq<string>, a: real, b: real): Outcome
    requires |args| == Arity(op)
  {
    match Evaluate(rt, op, a, b)
    case Failure(msg) =>
      var what := if op == Sqrt then "square root" else "division";
      ErrorReported(ErrorLine("Error performing " + what + ": " + msg))
    case Success(v) =>
      match Helpers.FormatNumber(rt.render(v))
      case None => Panicked
      case Some(formatted) => ResultShown(Echo(op, args) + formatted)
  }

  /** The operands of a known operation given the right number of
      arguments: both parsed for a binary operation, the first and 0 for a
      unary one; `None` when a parse fails. */
  function Operands(rt: Runtime, op: Op, args: seq<string>): Option<(real, real)>
    requires |args| == Arity(op)
  {
    match rt.parseFloat(args[0])
    case Failure(_) => None
    case Success(a) =>
      if Arity(op) == 1 then Some((a, 0.0))
      else match rt.parseFloat(args[1])
        case Failure(_) => None
        case Success(b) => Some((a, b))
  }

  /** Whether a run without `-version` gets as far as rendering a computed
      value: the name is known, the argument count is right, the operands
      parse and the calculator call succeeds. `withDot` says whether that
      rendering has the '.' `FormatNumber` splits at. */
  predicate ReachesRendering(rt: Runtime, opName: string, args: seq<string>, withDot: bool)
  {
    match LookupOp(opName)
    case None => false
    case Some(op) =>
      |args| == Arity(op) &&
      match Operands(rt, op, args)
      case None => false
      case Some(ab) =>
        match Evaluate(rt, op, ab.0, ab.1)
        case Failure(_) => false
        case Success(v) => ('.' in rt.render(v)) == withDot
  }

  /** `mainInternal`, after flag parsing: `showVersion` is `-version`,
      `opName` the `-op` value and `args` the positional arguments. Go's
      `a` and `b` start at zero, so a unary operation gets `b = 0`.
      The run exits 0 exactly when it shows the version or renders a
      result with a '.'; it panics exactly when the rendering has none;
      every other run calls `osExit(1)`. */
  function Run(rt: Runtime, build: Version.BuildInfo, showVersion: bool,
               opName: string, args: seq<string>): (o: Outcome)
    ensures o.ExitCode() == 0 <==> showVersion || ReachesRendering(rt, opName, args, true)
    ensures o.ResultShown? <==> !showVersion && ReachesRendering(rt, opName, args, true)
    ensures o.Panicked? <==> !showVersion && ReachesRendering(rt, opName, args, false)
    ensures o.CallsOsExit() <==>
              !showVersion && !ReachesRendering(rt, opName, args, true)
              && !ReachesRendering(rt, opName, args, false)
  {
    if showVersion then VersionShown(Version.Info(build))
    else match LookupOp(opName)
      case None =>
        // the first switch's default prints usage only for no arguments;
        // otherwise the second switch's default reports the name
        if |args| == 0 then UsageShown(CombinedUsage)
        else ErrorReported(ErrorLine("Unknown operation: " + opName))
      case Some(op) =>
        if IsBinary(op) then
          if |args| != 2 then UsageShown(BinaryUsage)
          else match rt.parseFloat(args[0])
            case Failure(e) => ErrorReported(ErrorLine("Error parsing first number: " + e))
            case Success(a) =>
              match rt.parseFloat(args[1])
              case Failure(e) => ErrorReported(ErrorLine("Error parsing second number: " + e))
              case Success(b) => Perform(rt, op, args, a, b)
        else
          if |args| != 1 then UsageShown(UnaryUsage)
          else match rt.parseFloat(args[0])
            case Failure(e) => ErrorReported(ErrorLine("Error parsing number: " + e))
            case Success(a) => Perform(rt, op, args, a, 0.0)
  }

  // -----------------------------------------------------------------------
  // Properties

  /** `-version` prints the version block and exits 0, whatever the
      operation and arguments; nothing is parsed or computed, so the
      outcome does not depend on the runtime. */
  lemma VersionFlagWins(rt: Runtime, rt': Runtime, build: Version.BuildInfo,
                        opName: string, args: seq<string>)
    ensures Run(rt, build, true, opName, args) == VersionShown(Version.Info(build))
    ensures Run(rt, build, true, opName, args) == Run(rt', build, true, opName, args)
    ensures Run(rt, build, true, opName, args).ExitCode() == 0
  {
  }

  /** A known operation with the wrong number of arguments prints the usage
      of its arity and exits 1, before any argument is parsed. */
  lemma ArityChecked(rt: Runtime, rt': Runtime, build: Version.BuildInfo,
                     op: Op, args: seq<string>)
    requires |args| != Arity(op)
    ensures Run(rt, build, false, OpName(op), args)
            == UsageShown(if IsBinary(op) then BinaryUsage else UnaryUsage)
    ensures Run(rt, build, false, OpName(op), args) == Run(rt', build, false, OpName(op), args)
    ensures Run(rt, build, false, OpName(op), args).ExitCode() == 1
  {
  }

  /** An unknown operation name (the empty one of `-op=` included) prints
      the combined usage when there are no arguments and otherwise reports
      the name; both exit 1 and parse nothing. */
  lemma UnknownOperation(rt: Runtime, rt': Runtime, build: Version.BuildInfo,
                         opName: string, args: seq<string>)
    requires forall op :: OpName(op) != opName
    ensures Run(rt, build, false, opName, args)
            == if |args| == 0 then UsageShown(CombinedUsage)
               else ErrorReported(ErrorLine("Unknown operation: " + opName))
    ensures Run(rt, build, false, opName, args) == Run(rt', build, false, opName, args)
    ensures Run(rt, build, false, opName, args).ExitCode() == 1
  {
  }

  /** The empty `-op=` value is not a known operation. */
  lemma EmptyNameUnknown(rt: Runtime, build: Version.BuildInfo)
    ensures forall op :: OpName(op) != ""
    ensures Run(rt, build, false, "", []) == UsageShown(CombinedUsage)
    ensures Run(rt, build, false, "", []).ExitCode() == 1
  {
    UnknownOperation(rt, rt, build, "", []);
  }

  /** The first operand is parsed first: if it fails, the error names the
      first number, and the second argument is never looked at (any runtime
      that parses the first argument the same way gives the same outcome). */
  lemma FirstOperandParsedFirst(rt: Runtime, rt': Runtime, build: Version.BuildInfo,
                                op: Op, args: seq<string>)
    requires IsBinary(op) && |args| == 2
    requires rt.parseFloat(args[0]).Failure?
    requires rt'.parseFloat(args[0]) == rt.parseFloat(args[0])
    ensures Run(rt, build, false, OpName(op), args)
            == ErrorReported(ErrorLine("Error parsing first number: " + rt.parseFloat(args[0]).error))
    ensures Run(rt, build, false, OpName(op), args) == Run(rt', build, false, OpName(op), args)
  {
  }

  /** A first operand that parses and a second that does not: the error
      names the second number. */
  lemma SecondOperandError(rt: Runtime, build: Version.BuildInfo, op: Op, args: seq<string>)
    requires IsBinary(op) && |args| == 2
    requires rt.parseFloat(args[0]).Success? && rt.parseFloat(args[1]).Failure?
    ensures Run(rt, build, false, OpName(op), args)
            == ErrorReported(ErrorLine("Error parsing second number: " + rt.parseFloat(args[1]).error))
  {
  }

  /** A unary operation whose operand does not parse. */
  lemma UnaryOperandError(rt: Runtime, build: Version.BuildInfo, op: Op, args: seq<string>)
    requires !IsBinary(op) && |args| == 1
    requires rt.parseFloat(args[0]).Failure?
    ensures Run(rt, build, false, OpName(op), args)
            == ErrorReported(ErrorLine("Error parsing number: " + rt.parseFloat(args[0]).error))
  {
  }

  /** Division by a second operand that parses to zero is reported on
      stderr with exit 1, and no result line is printed. */
  lemma DivisionByZeroReported(rt: Runtime, build: Version.BuildInfo, args: seq<string>, a: real)
    requires |args| == 2
    requires rt.parseFloat(args[0]) == Success(a) && rt.parseFloat(args[1]) == Success(0.0)
    ensures Run(rt, build, false, "divide", args)
            == ErrorReported("Error: Error performing division: division by zero")
    ensures Run(rt, build, false, "divide", args).ExitCode() == 1
  {
    assert LookupOp("divide") == Some(Divide);
    assert Run(rt, build, false, "divide", args)
           == ErrorReported(ErrorLine("Error performing " + "division" + ": " + Calculator.DivisionByZero));
    DivisionByZeroText();
  }

  /** The stderr line of a division by zero, spelled out; it exists only
      so that `DivisionByZeroReported` can state the literal line. */
  lemma DivisionByZeroText()
    ensures ErrorLine("Error performing " + "division" + ": " + Calculator.DivisionByZero)
            == "Error: Error performing division: division by zero"
  {
    var text := "Error performing " + "division";
    assert text == "Error performing division";
    text := text + ": ";
    assert text == "Error performing division: ";
    text := text + "division by zero";
    assert text == "Error performing division: division by zero";
    assert "Error: " + text == "Error: Error performing division: division by zero";
  }

  /** A successful binary operation other than random prints
      "<arg1> <symbol> <arg2> = <formatted>", echoing the argument strings,
      and exits 0. */
  lemma InfixResultLine(rt: Runtime, build: Version.BuildInfo, op: Op, args: seq<string>,
                        a: real, b: real, formatted: string)
    requires IsBinary(op) && op != Random && |args| == 2
    requires rt.parseFloat(args[0]) == Success(a) && rt.parseFloat(args[1]) == Success(b)
    requires op == Divide ==> b != 0.0
    requires Helpers.FormatNumber(rt.render(
               match op
               case Add => Calculator.Add(a, b)
               case Subtract => Calculator.Subtract(a, b)
               case Multiply => Calculator.Multiply(a, b)
               case Divide => Calculator.Divide(a, b).value
               case Power => rt.power(a, b)
               case _ => 0.0)) == Some(formatted)
    ensures Run(rt, build, false, OpName(op), args)
            == ResultShown(args[0] + (" " + Symbol(op) + " ") + args[1] + " = " + formatted)
    ensures Run(rt, build, false, OpName(op), args).ExitCode() == 0
  {
    assert LookupOp(OpName(op)) == Some(op);
    assert Run(rt, build, false, OpName(op), args) == Perform(rt, op, args, a, b);
    assert Perform(rt, op, args, a, b) == ResultShown(Echo(op, args) + formatted);
    match op
    case Add => assert " " + "+" + " " == " + ";
    case Subtract => assert " " + "-" + " " == " - ";
    case Multiply => assert " " + "*" + " " == " * ";
    case Divide => assert " " + "/" + " " == " / ";
    case Power => assert " " + "^" + " " == " ^ ";
  }

  /** A successful unary operation prints "<name>(<arg>) = <formatted>". */
  lemma PrefixResultLine(rt: Runtime, build: Version.BuildInfo, op: Op, args: seq<string>,
                         a: real, formatted: string)
    requires !IsBinary(op) && |args| == 1
    requires rt.parseFloat(args[0]) == Success(a)
    requires op == Sqrt ==> rt.squareRoot(a).Success?
    requires Helpers.FormatNumber(rt.render(
               match op
               case Sqrt => rt.squareRoot(a).value
               case Sin => rt.sin(a)
               case Cos => rt.cos(a)
               case Tan => rt.tan(a)
               case _ => 0.0)) == Some(formatted)
    ensures Run(rt, build, false, OpName(op), args)
            == ResultShown(OpName(op) + "(" + args[0] + ") = " + formatted)
    ensures Run(rt, build, false, OpName(op), args).ExitCode() == 0
  {
    assert Run(rt, build, false, OpName(op), args) == ResultShown(Echo(op, args) + formatted);
    match op
    case Sqrt => assert "sqrt(" == "sqrt" + "(";
    case Sin => assert "sin(" == "sin" + "(";
    case Cos => assert "cos(" == "cos" + "(";
    case Tan => assert "tan(" == "tan" + "(";
  }

  /** Random prints "random(<arg1>, <arg2>) = <formatted>". */
  lemma RandomResultLine(rt: Runtime, build: Version.BuildInfo, args: seq<string>,
                         a: real, b: real, formatted: string)
    requires |args| == 2
    requires rt.parseFloat(args[0]) == Success(a) && rt.parseFloat(args[1]) == Success(b)
    requires Helpers.FormatNumber(rt.render(rt.random(a, b))) == Some(formatted)
    ensures Run(rt, build, false, "random", args)
            == ResultShown("random(" + args[0] + ", " + args[1] + ") = " + formatted)
  {
    assert LookupOp("random") == Some(Random);
  }

  /** A product whose rendering is "+Inf" has no '.', so `FormatNumber`
      indexes past the end of its split: the run panics and the process
      exits 2 without calling `osExit`. */
  lemma InfiniteProductPanics(rt: Runtime, build: Version.BuildInfo, args: seq<string>,
                              a: real, b: real)
    requires |args| == 2
    requires rt.parseFloat(args[0]) == Success(a) && rt.parseFloat(args[1]) == Success(b)
    requires rt.render(Calculator.Multiply(a, b)) == "+Inf"
    ensures Run(rt, build, false, "multiply", args) == Panicked
    ensures Run(rt, build, false, "multiply", args).ExitCode() == 2
    ensures !Run(rt, build, false, "multiply", args).CallsOsExit()
  {
    assert LookupOp("multiply") == Some(Multiply);
    Helpers.NonFiniteRenderingsPanic();
  }

  /** A square root whose computation returns an error is reported on
      stderr with exit 1. */
  lemma SquareRootErrorReported(rt: Runtime, build: Version.BuildInfo, args: seq<string>, a: real)
    requires |args| == 1
    requires rt.parseFloat(args[0]) == Success(a) && rt.squareRoot(a).Failure?
    ensures Run(rt, build, false, "sqrt", args)
            == ErrorReported(ErrorLine("Error performing square root: " + rt.squareRoot(a).error))
  {
    assert LookupOp("sqrt") == Some(Sqrt);
    var msg := rt.squareRoot(a).error;
    assert Run(rt, build, false, "sqrt", args) == Perform(rt, Sqrt, args, a, 0.0);
    assert "Error performing " + "square root" + ": " + msg == "Error performing square root: " + msg;
  }

  /** Every run prints its failures in the documented form: errors go to
      stderr as one line beginning "Error: ", and usage text begins
      "Usage: ". */
  lemma OutcomeDiscipline(rt: Runtime, build: Version.BuildInfo, showVersion: bool,
                          opName: string, args: seq<string>)
    ensures var o := Run(rt, build, showVersion, opName, args);
            && (o.ErrorReported? ==> StartsWith(o.line, "Error: ") && o.OutputStream() == Stderr)
            && (o.UsageShown? ==> |o.lines| >= 2 && StartsWith(o.lines[0], "Usage: "))
  {
    UsageTexts();
  }

  /** Each usage text has at least two lines and begins with "Usage: ". */
  lemma UsageTexts()
    ensures |BinaryUsage| >= 2 && StartsWith(BinaryUsage[0], "Usage: ")
    ensures |UnaryUsage| >= 2 && StartsWith(UnaryUsage[0], "Usage: ")
    ensures |CombinedUsage| >= 2 && StartsWith(CombinedUsage[0], "Usage: ")
  {
    StartsWithConcat("Usage: ", "mathreleaser -op=[add|subtract|multiply|divide|power|random] <number1> <number2>");
    StartsWithConcat("Usage: ", "mathreleaser -op=[sqrt|sin|cos|tan] <number>");
  }

  /** With no `-op`, two numbers are added: `5 3` prints "5 + 3 = 8.00",
      given that `ParseFloat` reads "5" and "3" and `%.2f` renders 8 as
      "8.00". */
  lemma DefaultOperationAdds(rt: Runtime, build: Version.BuildInfo)
    requires rt.parseFloat("5") == Success(5.0) && rt.parseFloat("3") == Success(3.0)
    requires rt.render(8.0) == "8.00"
    ensures Run(rt, build, false, DefaultOp, ["5", "3"]) == ResultShown("5 + 3 = 8.00")
  {
    Helpers.ShortRenderingUnchanged("8.00");
    assert Run(rt, build, false, DefaultOp, ["5", "3"])
           == ResultShown(Echo(Add, ["5", "3"]) + "8.00");
    FiveAddThreeText();
  }

  /** The result line of `5 3`, spelled out; it exists only so that
      `DefaultOperationAdds` can state the literal line. */
  lemma FiveAddThreeText()
    ensures Echo(Add, ["5", "3"]) + "8.00" == "5 + 3 = 8.00"
  {
    var text := "5" + " + ";
    assert text == "5 + ";
    text := text + "3";
    assert text == "5 + 3";
    text := text + " = ";
    assert text == "5 + 3 = ";
    assert text + "8.00" == "5 + 3 = 8.00";
  }

  /** `-op=subtract 10 4` prints "10 - 4 = 6.00": the second operand is taken from the first. */
  lemma SubtractExample(rt: Runtime, build: Version.BuildInfo)
    requires rt.parseFloat("10") == Success(10.0) && rt.parseFloat("4") == Success(4.0)
    requires rt.render(6.0) == "6.00"
    ensures Run(rt, build, false, "subtract", ["10", "4"]) == ResultShown("10 - 4 = 6.00")
  {
    Helpers.ShortRenderingUnchanged("6.00");
    InfixResultLine(rt, build, Subtract, ["10", "4"], 10.0, 4.0, "6.00");
    var text := "10" + (" " + "-" + " ");
    assert text == "10 - ";
    text := text + "4";
    assert text == "10 - 4";
    text := text + " = ";
    assert text == "10 - 4 = ";
    assert text + "6.00" == "10 - 4 = 6.00";
  }

  /** `-op=multiply 6 7` prints "6 * 7 = 42.00". */
  lemma MultiplyExample(rt: Runtime, build: Version.BuildInfo)
    requires rt.parseFloat("6") == Success(6.0) && rt.parseFloat("7") == Success(7.0)
    requires rt.render(42.0) == "42.00"
    ensures Run(rt, build, false, "multiply", ["6", "7"]) == ResultShown("6 * 7 = 42.00")
  {
    Helpers.ShortRenderingUnchanged("42.00");
    InfixResultLine(rt, build, Multiply, ["6", "7"], 6.0, 7.0, "42.00");
    var text := "6" + (" " + "*" + " ");
    assert text == "6 * ";
    text := text + "7";
    assert text == "6 * 7";
    text := text + " = ";
    assert text == "6 * 7 = ";
    assert text + "42.00" == "6 * 7 = 42.00";
  }

  /** `-op=divide 20 5` prints "20 / 5 = 4.00": the first operand is divided by the second. */
  lemma DivideExample(rt: Runtime, build: Version.BuildInfo)
    requires rt.parseFloat("20") == Success(20.0) && rt.parseFloat("5") == Success(5.0)
    requires rt.render(4.0) == "4.00"
    ensures Run(rt, build, false, "divide", ["20", "5"]) == ResultShown("20 / 5 = 4.00")
  {
    Helpers.ShortRenderingUnchanged("4.00");
    InfixResultLine(rt, build, Divide, ["20", "5"], 20.0, 5.0, "4.00");
    var text := "20" + (" " + "/" + " ");
    assert text == "20 / ";
    text := text + "5";
    assert text == "20 / 5";
    text := text + " = ";
    assert text == "20 / 5 = ";
    assert text + "4.00" == "20 / 5 = 4.00";
  }

  /** `-op=power 2 3` prints "2 ^ 3 = 8.00", given that `Power(2, 3)` is 8: the base comes first. */
  lemma PowerExample(rt: Runtime, build: Version.BuildInfo)
    requires rt.parseFloat("2") == Success(2.0) && rt.parseFloat("3") == Success(3.0)
    requires rt.power(2.0, 3.0) == 8.0
    requires rt.render(8.0) == "8.00"
    ensures Run(rt, build, false, "power", ["2", "3"]) == ResultShown("2 ^ 3 = 8.00")
  {
    Helpers.ShortRenderingUnchanged("8.00");
    InfixResultLine(rt, build, Power, ["2", "3"], 2.0, 3.0, "8.00");
    var text := "2" + (" " + "^" + " ");
    assert text == "2 ^ ";
    text := text + "3";
    assert text == "2 ^ 3";
    text := text + " = ";
    assert text == "2 ^ 3 = ";
    assert text + "8.00" == "2 ^ 3 = 8.00";
  }

  /** `-op=sqrt 16` prints "sqrt(16) = 4.00", given that `SquareRoot(16)` is 4. */
  lemma SquareRootExample(rt: Runtime, build: Version.BuildInfo)
    requires rt.parseFloat("16") == Success(16.0)
    requires rt.squareRoot(16.0) == Success(4.0)
    requires rt.render(4.0) == "4.00"
    ensures Run(rt, build, false, "sqrt", ["16"]) == ResultShown("sqrt(16) = 4.00")
  {
    Helpers.ShortRenderingUnchanged("4.00");
    PrefixResultLine(rt, build, Sqrt, ["16"], 16.0, "4.00");
    var text := "sqrt" + "(";
    assert text == "sqrt(";
    text := text + "16";
    assert text == "sqrt(16";
    text := text + ") = ";
    assert text == "sqrt(16) = ";
    assert text + "4.00" == "sqrt(16) = 4.00";
  }

  /** `-op=sin 0` prints "sin(0) = 0.00", given that `Sin(0)` is 0. */
  lemma SineExample(rt: Runtime, build: Version.BuildInfo)
    requires rt.parseFloat("0") == Success(0.0)
    requires rt.sin(0.0) == 0.0
    requires rt.render(0.0) == "0.00"
    ensures Run(rt, build, false, "sin", ["0"]) == ResultShown("sin(0) = 0.00")
  {
    Helpers.ShortRenderingUnchanged("0.00");
    PrefixResultLine(rt, build, Sin, ["0"], 0.0, "0.00");
    var text := "sin" + "(";
    assert text == "sin(";
    text := text + "0";
    assert text == "sin(0";
    text := text + ") = ";
    assert text == "sin(0) = ";
    assert text + "0.00" == "sin(0) = 0.00";
  }

  /** `-op=cos 0` prints "cos(0) = 1.00", given that `Cos(0)` is 1. */
  lemma CosineExample(rt: Runtime, build: Version.BuildInfo)
    requires rt.parseFloat("0") == Success(0.0)
    requires rt.cos(0.0) == 1.0
    requires rt.render(1.0) == "1.00"
    ensures Run(rt, build, false, "cos", ["0"]) == ResultShown("cos(0) = 1.00")
  {
    Helpers.ShortRenderingUnchanged("1.00");
    PrefixResultLine(rt, build, Cos, ["0"], 0.0, "1.00");
    var text := "cos" + "(";
    assert text == "cos(";
    text := text + "0";
    assert text == "cos(0";
    text := text + ") = ";
    assert text == "cos(0) = ";
    assert text + "1.00" == "cos(0) = 1.00";
  }
}
