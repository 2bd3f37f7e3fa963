// commands/ConditionAST.ts: the condition language of input bindings and
// commands.  Parsing and evaluation follow the code as written: the split
// index of a binary expression is always that of the first "||" (or -1),
// and `Or` evaluates with `&&`.
module ConditionAst {
  import opened Results
  import opened Json

  /** A flag: evaluated on the sender and the event arguments. */
  type FlagDelegate = (Value, Value) -> bool

  datatype Condition =
    | And(lhs: Condition, rhs: Condition)
    | Or(lhs: Condition, rhs: Condition)
    | Not(operand: Condition)
    | Flag(conditionName: string)
    | Constant(value: bool)

  datatype ParseError = CouldNotParse(expr: string)

  datatype EvalError = FlagNotFound(conditionName: string)

  /** The characters `String.prototype.trim` removes (white space and line terminators). */
  predicate IsWhiteSpace(c: char) {
    c == '\t' || c == '\n' || c == '\U{000B}' || c == '\U{000C}' || c == '\r' || c == ' '
    || c == '\U{00A0}' || c == '\U{1680}' || ('\U{2000}' <= c <= '\U{200A}')
    || c == '\U{2028}' || c == '\U{2029}' || c == '\U{202F}' || c == '\U{205F}'
    || c == '\U{3000}' || c == '\U{FEFF}'
  }

  function TrimStart(s: string): (r: string)
    ensures |r| <= |s| && r == s[|s| - |r|..]
    ensures forall i | 0 <= i < |s| - |r| :: IsWhiteSpace(s[i])
    ensures r == [] || !IsWhiteSpace(r[0])
  {
    if s != [] && IsWhiteSpace(s[0]) then TrimStart(s[1..]) else s
  }

  function TrimEnd(s: string): (r: string)
    ensures |r| <= |s| && r == s[..|r|]
    ensures forall i | |r| <= i < |s| :: IsWhiteSpace(s[i])
    ensures r == [] || !IsWhiteSpace(r[|r| - 1])
  {
    if s != [] && IsWhiteSpace(s[|s| - 1]) then TrimEnd(s[..|s| - 1]) else s
  }

  /** `s.trim()`: the longest infix that neither starts nor ends with white space. */
  function Trim(s: string): (r: string)
    ensures |r| <= |s|
    ensures r == [] || (!IsWhiteSpace(r[0]) && !IsWhiteSpace(r[|r| - 1]))
  {
    TrimEnd(TrimStart(s))
  }

  /** Trimming white space twice removes nothing more. */
  lemma TrimIsIdempotent(s: string)
    ensures Trim(Trim(s)) == Trim(s)
  {
    var t := Trim(s);
    if t != [] {
      assert TrimStart(t) == t;
      assert TrimEnd(t) == t;
    }
  }

  /** A string is trimmed to nothing exactly when it is all white space. */
  lemma TrimEmptyIffAllWhiteSpace(s: string)
    ensures Trim(s) == [] <==> forall i | 0 <= i < |s| :: IsWhiteSpace(s[i])
  {
  }

  predicate OccursAt(s: string, pattern: string, i: int) {
    0 <= i && i + |pattern| <= |s| && s[i..i + |pattern|] == pattern
  }

  function IndexOfFrom(s: string, pattern: string, from: nat): (r: int)
    requires from <= |s|
    ensures r == -1 || (from <= r && OccursAt(s, pattern, r))
    ensures forall j | from <= j && (r == -1 || j < r) :: !OccursAt(s, pattern, j)
    decreases |s| - from
  {
    if from + |pattern| > |s| then -1
    else if s[from..from + |pattern|] == pattern then from
    else IndexOfFrom(s, pattern, from + 1)
  }

  /** `s.indexOf(pattern)`: the first occurrence, or -1 when there is none. */
  function IndexOf(s: string, pattern: string): (r: int)
    ensures r == -1 <==> forall j :: !OccursAt(s, pattern, j)
    ensures r != -1 ==> OccursAt(s, pattern, r) && forall j | 0 <= j < r :: !OccursAt(s, pattern, j)
  {
    IndexOfFrom(s, pattern, 0)
  }

  /** `s.substr(start, length)`: both arguments are clamped to the string. */
  function Substr(s: string, start: int, length: int): (r: string)
    ensures |r| <= |s|
    ensures 0 <= start && 0 <= length && start + length <= |s| ==> r == s[start..start + length]
    ensures length <= 0 ==> r == []
  {
    var from := if start < 0 then (if |s| + start < 0 then 0 else |s| + start) else (if start > |s| then |s| else start);
    var len := if length < 0 then 0 else length;
    var to := if from + len > |s| then |s| else from + len;
    s[from..to]
  }

  /** `s.substr(start)` with the length omitted: up to the end of the string. */
  function SubstrFrom(s: string, start: int): (r: string)
    ensures 0 <= start <= |s| ==> r == s[start..]
    ensures start >= |s| ==> r == []
  {
    Substr(s, start, |s|)
  }

  /**
   * `ConditionAST.parse(expr, flags)`, given the names the flags record
   * holds: the expression is trimmed first.
   */
  function Parse(expr: string, flagNames: set<string>): (r: Result<Condition, ParseError>)
    decreases |expr|, 1
  {
    ParseTrimmed(Trim(expr), flagNames)
  }

  /**
   * The body of `parse` after trimming.  The left operand is
   * `expr.substr(0, firstOrIndex)` and the right one
   * `expr.substr(firstOrIndex + 2)`, even when only "&&" occurs.
   */
  function ParseTrimmed(t: string, flagNames: set<string>): (r: Result<Condition, ParseError>)
    decreases |t|, 0
  {
    if |t| == 0 then Ok(Constant(true))
    else
      var orIndex := IndexOf(t, "||");
      var andIndex := IndexOf(t, "&&");
      if orIndex != -1 || andIndex != -1 then
        var lhs := Parse(Substr(t, 0, orIndex), flagNames);
        if lhs.Err? then Err(lhs.error)
        else
          var rhs := Parse(SubstrFrom(t, orIndex + 2), flagNames);
          if rhs.Err? then Err(rhs.error)
          else if orIndex != -1 && orIndex < andIndex then Ok(Or(lhs.value, rhs.value))
          else Ok(And(lhs.value, rhs.value))
      else if t[0] == '!' then
        var operand := Parse(SubstrFrom(t, 1), flagNames);
        if operand.Err? then Err(operand.error) else Ok(Not(operand.value))
      else if t in flagNames then Ok(Flag(t))
      else Err(CouldNotParse(t))
  }

  /** `toBoolean(sender, args)`; `&&` short-circuits, so an unevaluated operand cannot throw. */
  function ToBoolean(c: Condition, flags: map<string, FlagDelegate>, sender: Value, args: Value): (r: Result<bool, EvalError>)
  {
    match c
    case And(lhs, rhs) =>
      var l := ToBoolean(lhs, flags, sender, args);
      if l.Err? || !l.value then l else ToBoolean(rhs, flags, sender, args)
    case Or(lhs, rhs) =>
      var l := ToBoolean(lhs, flags, sender, args);
      if l.Err? || !l.value then l else ToBoolean(rhs, flags, sender, args)
    case Not(operand) =>
      var o := ToBoolean(operand, flags, sender, args);
      if o.Err? then o else Ok(!o.value)
    case Flag(name) =>
      if name in flags then Ok(flags[name](sender, args)) else Err(FlagNotFound(name))
    case Constant(value) => Ok(value)
  }

  /** The flag names a condition refers to. */
  function FlagsOf(c: Condition): set<string> {
    match c
    case And(lhs, rhs) => FlagsOf(lhs) + FlagsOf(rhs)
    case Or(lhs, rhs) => FlagsOf(lhs) + FlagsOf(rhs)
    case Not(operand) => FlagsOf(operand)
    case Flag(name) => {name}
    case Constant(_) => {}
  }

  /** A parsed condition only names flags the record held at parse time. */
  lemma {:induction false} ParsedFlagsAreKnown(expr: string, flagNames: set<string>)
    requires Parse(expr, flagNames).Ok?
    ensures FlagsOf(Parse(expr, flagNames).value) <= flagNames
    decreases |expr|, 1
  {
    ParsedTrimmedFlagsAreKnown(Trim(expr), flagNames);
  }

  lemma {:induction false} ParsedTrimmedFlagsAreKnown(t: string, flagNames: set<string>)
    requires ParseTrimmed(t, flagNames).Ok?
    ensures FlagsOf(ParseTrimmed(t, flagNames).value) <= flagNames
    decreases |t|, 0
  {
    if |t| != 0 {
      var orIndex := IndexOf(t, "||");
      var andIndex := IndexOf(t, "&&");
      if orIndex != -1 || andIndex != -1 {
        BinaryFlags(t, flagNames);
        ParsedFlagsAreKnown(Substr(t, 0, orIndex), flagNames);
        ParsedFlagsAreKnown(SubstrFrom(t, orIndex + 2), flagNames);
      } else if t[0] == '!' {
        NegationFlags(t, flagNames);
        ParsedFlagsAreKnown(SubstrFrom(t, 1), flagNames);
      } else {
        LeafFlags(t, flagNames);
      }
    } else {
      LeafFlags(t, flagNames);
    }
  }

  /** The empty condition names no flag, and a lone name is a flag the record holds. */
  lemma LeafFlags(t: string, flagNames: set<string>)
    requires ParseTrimmed(t, flagNames).Ok?
    requires |t| == 0 || (IndexOf(t, "||") == -1 && IndexOf(t, "&&") == -1 && t[0] != '!')
    ensures FlagsOf(ParseTrimmed(t, flagNames).value) <= flagNames
  {
  }

  /** A binary condition names the flags of its two operands. */
  lemma BinaryFlags(t: string, flagNames: set<string>)
    requires ParseTrimmed(t, flagNames).Ok? && |t| != 0
    requires IndexOf(t, "||") != -1 || IndexOf(t, "&&") != -1
    ensures var left, right := Parse(Substr(t, 0, IndexOf(t, "||")), flagNames), Parse(SubstrFrom(t, IndexOf(t, "||") + 2), flagNames);
      && left.Ok? && right.Ok?
      && FlagsOf(ParseTrimmed(t, flagNames).value) == FlagsOf(left.value) + FlagsOf(right.value)
  {
  }

  /** A negation names the flags of its operand. */
  lemma NegationFlags(t: string, flagNames: set<string>)
    requires ParseTrimmed(t, flagNames).Ok? && |t| != 0 && t[0] == '!'
    requires IndexOf(t, "||") == -1 && IndexOf(t, "&&") == -1
    ensures Parse(SubstrFrom(t, 1), flagNames).Ok?
    ensures FlagsOf(ParseTrimmed(t, flagNames).value) == FlagsOf(Parse(SubstrFrom(t, 1), flagNames).value)
  {
  }

  /** Evaluation cannot fail when every flag the condition names is present. */
  lemma {:induction false} EvaluationOfKnownFlagsSucceeds(c: Condition, flags: map<string, FlagDelegate>, sender: Value, args: Value)
    requires FlagsOf(c) <= flags.Keys
    ensures ToBoolean(c, flags, sender, args).Ok?
  {
    match c
    case And(lhs, rhs) =>
      EvaluationOfKnownFlagsSucceeds(lhs, flags, sender, args);
      EvaluationOfKnownFlagsSucceeds(rhs, flags, sender, args);
    case Or(lhs, rhs) =>
      EvaluationOfKnownFlagsSucceeds(lhs, flags, sender, args);
      EvaluationOfKnownFlagsSucceeds(rhs, flags, sender, args);
    case Not(operand) =>
      EvaluationOfKnownFlagsSucceeds(operand, flags, sender, args);
    case Flag(_) =>
    case Constant(_) =>
  }

  /** A condition parsed against a flags record evaluates against that record without throwing. */
  lemma ParseThenEvaluateSucceeds(expr: string, flags: map<string, FlagDelegate>, sender: Value, args: Value)
    requires Parse(expr, flags.Keys).Ok?
    ensures ToBoolean(Parse(expr, flags.Keys).value, flags, sender, args).Ok?
  {
    ParsedFlagsAreKnown(expr, flags.Keys);
    EvaluationOfKnownFlagsSucceeds(Parse(expr, flags.Keys).value, flags, sender, args);
  }

  /** An empty or all-white-space condition is the constant true, which holds for every sender. */
  lemma BlankConditionHolds(expr: string, flags: map<string, FlagDelegate>, sender: Value, args: Value)
    requires forall i | 0 <= i < |expr| :: IsWhiteSpace(expr[i])
    ensures Parse(expr, flags.Keys) == Ok(Constant(true))
    ensures ToBoolean(Parse(expr, flags.Keys).value, flags, sender, args) == Ok(true)
  {
    TrimEmptyIffAllWhiteSpace(expr);
    assert Trim(expr) == [];
    assert ParseTrimmed([], flags.Keys) == Ok(Constant(true));
  }

  /** Surrounding white space never changes what a condition parses to. */
  lemma ParseIgnoresSurroundingWhiteSpace(expr: string, flagNames: set<string>)
    ensures Parse(Trim(expr), flagNames) == Parse(expr, flagNames)
  {
    TrimIsIdempotent(expr);
  }

  /** `Or` is evaluated exactly as `And` is. */
  lemma OrEvaluatesAsAnd(lhs: Condition, rhs: Condition, flags: map<string, FlagDelegate>, sender: Value, args: Value)
    ensures ToBoolean(Or(lhs, rhs), flags, sender, args) == ToBoolean(And(lhs, rhs), flags, sender, args)
  {
  }

  /** `Not` negates a successful evaluation and passes a failure through. */
  lemma NotNegates(operand: Condition, flags: map<string, FlagDelegate>, sender: Value, args: Value)
    ensures ToBoolean(Not(operand), flags, sender, args).Ok? == ToBoolean(operand, flags, sender, args).Ok?
    ensures ToBoolean(operand, flags, sender, args).Ok? ==>
      ToBoolean(Not(operand), flags, sender, args).value == !ToBoolean(operand, flags, sender, args).value
  {
  }

  /** A single known flag name, surrounded by any white space, parses to that flag and evaluates to its delegate. */
  lemma FlagNameParsesToFlag(name: string, flags: map<string, FlagDelegate>, sender: Value, args: Value)
    requires name in flags && Trim(name) == name && name != []
    requires name[0] != '!' && IndexOf(name, "||") == -1 && IndexOf(name, "&&") == -1
    ensures Parse(name, flags.Keys) == Ok(Flag(name))
    ensures ToBoolean(Flag(name), flags, sender, args) == Ok(flags[name](sender, args))
  {
  }

  /** A string that neither starts nor ends with white space is its own trim. */
  lemma TrimOfUnpadded(s: string)
    requires s != [] && !IsWhiteSpace(s[0]) && !IsWhiteSpace(s[|s| - 1])
    ensures Trim(s) == s
  {
    assert TrimStart(s) == s;
    assert TrimEnd(s) == s;
  }

  /** A one-letter flag name parses to that flag. */
  lemma SingleLetterFlag(name: string, flagNames: set<string>)
    requires |name| == 1 && name in flagNames && !IsWhiteSpace(name[0]) && name[0] != '!'
    ensures Parse(name, flagNames) == Ok(Flag(name))
  {
    TrimOfUnpadded(name);
    assert IndexOf(name, "||") == -1;
    assert IndexOf(name, "&&") == -1;
  }

  /** A pattern whose first character a string lacks never occurs in it. */
  lemma AbsentFirstCharacter(s: string, pattern: string)
    requires pattern != [] && forall i | 0 <= i < |s| :: s[i] != pattern[0]
    ensures forall j :: !OccursAt(s, pattern, j)
  {
    forall j
      ensures !OccursAt(s, pattern, j)
    {
      if 0 <= j && j + |pattern| <= |s| {
        assert s[j..j + |pattern|][0] == s[j];
      }
    }
  }

  /** An operator character: neither white space, nor '!', '|' or '&'. */
  predicate IsNameChar(c: char) {
    !IsWhiteSpace(c) && c != '!' && c != '|' && c != '&'
  }

  /** The positions of "||" and "&&" in `x||y`. */
  lemma OperatorsOfLoneOr(x: char, y: char)
    requires IsNameChar(x) && IsNameChar(y)
    ensures IndexOf([x, '|', '|', y], "||") == 1
    ensures IndexOf([x, '|', '|', y], "&&") == -1
  {
    var t := [x, '|', '|', y];
    assert OccursAt(t, "||", 1);
    assert t[0..2][0] == x;
    AbsentFirstCharacter(t, "&&");
  }

  /** The text on either side of the "||" in `x||y`. */
  lemma OperandsOfLoneOr(x: char, y: char)
    ensures Substr([x, '|', '|', y], 0, 1) == [x]
    ensures SubstrFrom([x, '|', '|', y], 3) == [y]
  {
  }

  /**
   * An unpadded expression holding "||" or "&&" splits around its first
   * "||": an `Or` exactly when that "||" comes before the first "&&".
   */
  lemma ParseOfBinary(t: string, flagNames: set<string>, lhs: Condition, rhs: Condition)
    requires t != [] && Trim(t) == t
    requires IndexOf(t, "||") != -1 || IndexOf(t, "&&") != -1
    requires Parse(Substr(t, 0, IndexOf(t, "||")), flagNames) == Ok(lhs)
    requires Parse(SubstrFrom(t, IndexOf(t, "||") + 2), flagNames) == Ok(rhs)
    ensures IndexOf(t, "||") != -1 && IndexOf(t, "||") < IndexOf(t, "&&") ==> Parse(t, flagNames) == Ok(Or(lhs, rhs))
    ensures !(IndexOf(t, "||") != -1 && IndexOf(t, "||") < IndexOf(t, "&&")) ==> Parse(t, flagNames) == Ok(And(lhs, rhs))
  {
  }

  /**
   * `x||y` for two one-letter flags: with no "&&" after the "||" the result
   * is an `And`, which evaluates as a conjunction.
   */
  lemma LoneOrParsesAsAnd(x: char, y: char, flags: map<string, FlagDelegate>, sender: Value, args: Value)
    requires IsNameChar(x) && IsNameChar(y) && [x] in flags && [y] in flags
    ensures Parse([x, '|', '|', y], flags.Keys) == Ok(And(Flag([x]), Flag([y])))
    ensures ToBoolean(And(Flag([x]), Flag([y])), flags, sender, args)
      == Ok(flags[[x]](sender, args) && flags[[y]](sender, args))
  {
    var t := [x, '|', '|', y];
    TrimOfUnpadded(t);
    OperatorsOfLoneOr(x, y);
    OperandsOfLoneOr(x, y);
    SingleLetterFlag([x], flags.Keys);
    SingleLetterFlag([y], flags.Keys);
    ParseOfBinary(t, flags.Keys, Flag([x]), Flag([y]));
  }
}
