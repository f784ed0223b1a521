/** Pricing formulas and the time they charge for. */
module Formulas {
  import opened Base
  import opened Calendar
  import opened Timeline

  /** A formula after `compile_formula`: arithmetic, `ceil` and the four variables, all `numeric`. */
  datatype Formula =
    | Const(value: real)
    | MemoryInMb
    | StorageInMb
    | NumberOfNodes
    | TimeInSeconds
    | Add(left: Formula, right: Formula)
    | Sub(left: Formula, right: Formula)
    | Mul(left: Formula, right: Formula)
    | Div(left: Formula, right: Formula)
    | Ceil(arg: Formula)

  datatype Inputs = Inputs(memory: int, storage: int, nodes: int)

  function CeilOf(x: real): int {
    -((-x).Floor)
  }

  /** `eval_formula`; `None` is PostgreSQL's division by zero, which fails the whole statement. */
  function Eval(f: Formula, v: Inputs, seconds: real): Option<real> {
    match f
    case Const(c) => Some(c)
    case MemoryInMb => Some(v.memory as real)
    case StorageInMb => Some(v.storage as real)
    case NumberOfNodes => Some(v.nodes as real)
    case TimeInSeconds => Some(seconds)
    case Add(l, r) =>
      (match (Eval(l, v, seconds), Eval(r, v, seconds))
       case (Some(a), Some(b)) => Some(a + b)
       case _ => None)
    case Sub(l, r) =>
      (match (Eval(l, v, seconds), Eval(r, v, seconds))
       case (Some(a), Some(b)) => Some(a - b)
       case _ => None)
    case Mul(l, r) =>
      (match (Eval(l, v, seconds), Eval(r, v, seconds))
       case (Some(a), Some(b)) => Some(Product(a, b))
       case _ => None)
    case Div(l, r) =>
      (match (Eval(l, v, seconds), Eval(r, v, seconds))
       case (Some(a), Some(b)) => Quotient(a, b)
       case _ => None)
    case Ceil(a) => (match Eval(a, v, seconds) case None => None case Some(x) => Some(CeilOf(x) as real))
  }

  function Product(a: real, b: real): real {
    a * b
  }

  function Quotient(a: real, b: real): Option<real> {
    if b == 0.0 then None else Some(a / b)
  }

  // ----- The statement a formula is compiled to -----

  datatype Operator = Plus | Minus | Times | Over

  /** What `compile_formula` leaves of a formula: the variables are the parameters `$1` to `$4`. */
  datatype Sql =
    | Number(value: real)
    | Param(index: nat)
    | Binary(op: Operator, left: Sql, right: Sql)
    | Ceiling(arg: Sql)

  function Compile(f: Formula): Sql {
    match f
    case Const(c) => Number(c)
    case MemoryInMb => Param(1)
    case StorageInMb => Param(2)
    case NumberOfNodes => Param(3)
    case TimeInSeconds => Param(4)
    case Add(l, r) => Binary(Plus, Compile(l), Compile(r))
    case Sub(l, r) => Binary(Minus, Compile(l), Compile(r))
    case Mul(l, r) => Binary(Times, Compile(l), Compile(r))
    case Div(l, r) => Binary(Over, Compile(l), Compile(r))
    case Ceil(a) => Ceiling(Compile(a))
  }

  function Operate(op: Operator, a: real, b: real): Option<real> {
    match op
    case Plus => Some(a + b)
    case Minus => Some(a - b)
    case Times => Some(a * b)
    case Over => if b == 0.0 then None else Some(a / b)
  }

  /** `execute ... into out using ...`; a parameter that was not passed is an error. */
  function Execute(sql: Sql, params: seq<real>): Option<real> {
    match sql
    case Number(c) => Some(c)
    case Param(n) => if 1 <= n <= |params| then Some(params[n - 1]) else None
    case Binary(op, l, r) =>
      (match (Execute(l, params), Execute(r, params))
       case (Some(a), Some(b)) => Operate(op, a, b)
       case _ => None)
    case Ceiling(arg) => (match Execute(arg, params) case None => None case Some(x) => Some(CeilOf(x) as real))
  }

  /** The least whole number that is not below `x`. */
  lemma CeilOfMeaning(x: real)
    ensures (CeilOf(x) - 1) as real < x <= CeilOf(x) as real
  {
  }

  /** Pricing evaluates what `eval_formula` executes, with the sizes and the seconds in this order. */
  lemma {:induction false} EvalExecutes(f: Formula, v: Inputs, seconds: real)
    ensures Eval(f, v, seconds)
         == Execute(Compile(f), [v.memory as real, v.storage as real, v.nodes as real, seconds])
  {
    match f
    case Add(l, r) => EvalExecutes(l, v, seconds); EvalExecutes(r, v, seconds);
    case Sub(l, r) => EvalExecutes(l, v, seconds); EvalExecutes(r, v, seconds);
    case Mul(l, r) => EvalExecutes(l, v, seconds); EvalExecutes(r, v, seconds);
    case Div(l, r) => EvalExecutes(l, v, seconds); EvalExecutes(r, v, seconds);
    case Ceil(a) => EvalExecutes(a, v, seconds);
    case _ =>
  }

  /** `extract(epoch from (upper(duration) - lower(duration)))` */
  function Seconds(r: Range): real {
    (r.hi - r.lo) as real / 1000000.0
  }

  predicate TimeFree(f: Formula) {
    match f
    case TimeInSeconds => false
    case Add(l, r) => TimeFree(l) && TimeFree(r)
    case Sub(l, r) => TimeFree(l) && TimeFree(r)
    case Mul(l, r) => TimeFree(l) && TimeFree(r)
    case Div(l, r) => TimeFree(l) && TimeFree(r)
    case Ceil(a) => TimeFree(a)
    case _ => true
  }

  /** A charge per second and a charge per started hour. */
  datatype Meter = Meter(perSecond: real, perHour: real) {
    function Scale(c: real): Meter {
      Meter(c * perSecond, c * perHour)
    }

    function Charge(seconds: real, hours: int): real {
      perSecond * seconds + perHour * hours as real
    }
  }

  /** The meter a formula runs, for formulas built from `$time_in_seconds` and
      `ceil($time_in_seconds / 3600)` by adding, subtracting and scaling; `None` for other formulas. */
  function MeterOf(f: Formula, v: Inputs): Option<Meter> {
    if TimeFree(f) then
      if Eval(f, v, 0.0) == Some(0.0) then Some(Meter(0.0, 0.0)) else None
    else
      match f
      case TimeInSeconds => Some(Meter(1.0, 0.0))
      case Ceil(a) => if a == Div(TimeInSeconds, Const(3600.0)) then Some(Meter(0.0, 1.0)) else None
      case Add(l, r) =>
        var a, b := MeterOf(l, v), MeterOf(r, v);
        if a.Some? && b.Some?
        then Some(Meter(a.value.perSecond + b.value.perSecond, a.value.perHour + b.value.perHour)) else None
      case Sub(l, r) =>
        var a, b := MeterOf(l, v), MeterOf(r, v);
        if a.Some? && b.Some?
        then Some(Meter(a.value.perSecond - b.value.perSecond, a.value.perHour - b.value.perHour)) else None
      case Mul(l, r) =>
        if TimeFree(l) then Scaled(Eval(l, v, 0.0), MeterOf(r, v))
        else if TimeFree(r) then Scaled(Eval(r, v, 0.0), MeterOf(l, v))
        else None
      case Div(l, r) =>
        var d := Eval(r, v, 0.0);
        if TimeFree(r) && d.Some? && d.value != 0.0 then Scaled(Some(1.0 / d.value), MeterOf(l, v)) else None
      case _ => None
  }

  function Scaled(c: Option<real>, m: Option<Meter>): Option<Meter> {
    if c.Some? && m.Some? then Some(m.value.Scale(c.value)) else None
  }

  lemma {:induction false} TimeFreeEval(f: Formula, v: Inputs, s: real, t: real)
    requires TimeFree(f)
    ensures Eval(f, v, s) == Eval(f, v, t)
  {
    match f
    case Add(l, r) => TimeFreeEval(l, v, s, t); TimeFreeEval(r, v, s, t);
    case Sub(l, r) => TimeFreeEval(l, v, s, t); TimeFreeEval(r, v, s, t);
    case Mul(l, r) => TimeFreeEval(l, v, s, t); TimeFreeEval(r, v, s, t);
    case Div(l, r) => TimeFreeEval(l, v, s, t); TimeFreeEval(r, v, s, t);
    case Ceil(a) => TimeFreeEval(a, v, s, t);
    case _ =>
  }

  lemma ScaleCharge(m: Meter, c: real, seconds: real, hours: int)
    ensures m.Scale(c).Charge(seconds, hours) == c * m.Charge(seconds, hours)
  {
    var h := hours as real;
    assert (c * m.perSecond) * seconds == c * (m.perSecond * seconds);
    assert (c * m.perHour) * h == c * (m.perHour * h);
  }

  lemma SumCharge(a: Meter, b: Meter, seconds: real, hours: int)
    ensures Meter(a.perSecond + b.perSecond, a.perHour + b.perHour).Charge(seconds, hours)
         == a.Charge(seconds, hours) + b.Charge(seconds, hours)
    ensures Meter(a.perSecond - b.perSecond, a.perHour - b.perHour).Charge(seconds, hours)
         == a.Charge(seconds, hours) - b.Charge(seconds, hours)
  {
  }

  lemma MulMeter(constant: Formula, timed: Formula, v: Inputs, seconds: real, c: real, m: Meter, hours: int)
    requires Eval(constant, v, seconds) == Some(c)
    requires Eval(timed, v, seconds) == Some(m.Charge(seconds, hours))
    ensures Eval(Mul(constant, timed), v, seconds) == Some(m.Scale(c).Charge(seconds, hours))
    ensures Eval(Mul(timed, constant), v, seconds) == Some(m.Scale(c).Charge(seconds, hours))
  {
    hide Product;
    var charge := m.Charge(seconds, hours);
    ProductScales(m, c, seconds, hours);
    assert Eval(Mul(constant, timed), v, seconds) == Some(Product(c, charge));
    assert Eval(Mul(timed, constant), v, seconds) == Some(Product(charge, c));
  }

  lemma ProductScales(m: Meter, c: real, seconds: real, hours: int)
    ensures Product(c, m.Charge(seconds, hours)) == m.Scale(c).Charge(seconds, hours)
    ensures Product(m.Charge(seconds, hours), c) == m.Scale(c).Charge(seconds, hours)
  {
    var charge := m.Charge(seconds, hours);
    ScaleCharge(m, c, seconds, hours);
    assert Product(c, charge) == Product(charge, c) == c * charge;
  }

  lemma DivMeter(timed: Formula, constant: Formula, v: Inputs, seconds: real, m: Meter, hours: int)
    requires TimeFree(constant) && Eval(constant, v, 0.0).Some? && Eval(constant, v, 0.0).value != 0.0
    requires Eval(timed, v, seconds) == Some(m.Charge(seconds, hours))
    ensures Eval(Div(timed, constant), v, seconds)
         == Some(m.Scale(1.0 / Eval(constant, v, 0.0).value).Charge(seconds, hours))
  {
    TimeFreeEval(constant, v, seconds, 0.0);
    var d := Eval(constant, v, 0.0).value;
    ScaleCharge(m, 1.0 / d, seconds, hours);
    var charge := m.Charge(seconds, hours);
    assert Eval(constant, v, seconds) == Some(d);
    assert Eval(Div(timed, constant), v, seconds) == Quotient(charge, d);
    assert (1.0 / d) * charge == charge / d;
  }

  /** A metered formula never fails, and charges what its meter says. */
  lemma {:induction false} MeterMeaning(f: Formula, v: Inputs, seconds: real)
    requires MeterOf(f, v).Some?
    ensures Eval(f, v, seconds) == Some(MeterOf(f, v).value.Charge(seconds, CeilOf(seconds / 3600.0)))
  {
    var hours := CeilOf(seconds / 3600.0);
    if TimeFree(f) {
      TimeFreeEval(f, v, seconds, 0.0);
    } else {
      match f
      case TimeInSeconds =>
      case Ceil(a) =>
        assert Eval(TimeInSeconds, v, seconds) == Some(seconds) && Eval(Const(3600.0), v, seconds) == Some(3600.0);
        assert Eval(a, v, seconds) == Some(seconds / 3600.0);
      case Add(l, r) =>
        MeterMeaning(l, v, seconds);
        MeterMeaning(r, v, seconds);
        SumCharge(MeterOf(l, v).value, MeterOf(r, v).value, seconds, hours);
      case Sub(l, r) =>
        MeterMeaning(l, v, seconds);
        MeterMeaning(r, v, seconds);
        SumCharge(MeterOf(l, v).value, MeterOf(r, v).value, seconds, hours);
      case Mul(l, r) =>
        if TimeFree(l) {
          MeterMeaning(r, v, seconds);
          TimeFreeEval(l, v, seconds, 0.0);
          MulMeter(l, r, v, seconds, Eval(l, v, 0.0).value, MeterOf(r, v).value, hours);
        } else {
          MeterMeaning(l, v, seconds);
          TimeFreeEval(r, v, seconds, 0.0);
          MulMeter(r, l, v, seconds, Eval(r, v, 0.0).value, MeterOf(l, v).value, hours);
        }
      case Div(l, r) =>
        MeterMeaning(l, v, seconds);
        DivMeter(l, r, v, seconds, MeterOf(l, v).value, hours);
    }
  }

  /** The formula of the README's app plan:
      `$number_of_nodes * ceil($time_in_seconds / 3600) * ($memory_in_mb/1024.0) * 0.01` */
  const APP_FORMULA :=
    Mul(Mul(Mul(NumberOfNodes, Ceil(Div(TimeInSeconds, Const(3600.0)))), Div(MemoryInMb, Const(1024.0))), Const(0.01))

  /** It is metered by the started hour alone. */
  lemma AppFormulaIsHourly(v: Inputs)
    ensures MeterOf(APP_FORMULA, v).Some?
    ensures MeterOf(APP_FORMULA, v).value.perSecond == 0.0
    ensures MeterOf(APP_FORMULA, v).value.perHour == 0.01 * (v.memory as real / 1024.0 * v.nodes as real)
  {
    var hours := Ceil(Div(TimeInSeconds, Const(3600.0)));
    var nodeHours := Mul(NumberOfNodes, hours);
    var memoryHours := Mul(nodeHours, Div(MemoryInMb, Const(1024.0)));
    assert MeterOf(hours, v) == Some(Meter(0.0, 1.0));
    assert MeterOf(nodeHours, v) == Some(Meter(0.0, v.nodes as real));
    assert Eval(Div(MemoryInMb, Const(1024.0)), v, 0.0) == Some(v.memory as real / 1024.0);
    assert MeterOf(memoryHours, v) == Some(Meter(0.0, v.nodes as real).Scale(v.memory as real / 1024.0));
    assert MeterOf(APP_FORMULA, v) == Scaled(Eval(Const(0.01), v, 0.0), MeterOf(memoryHours, v));
  }

  // ----- Started hours, counted in whole microseconds -----

  function HoursStarted(microseconds: int): int {
    -((-microseconds) / HOUR)
  }

  lemma HoursStartedBounds(d: int)
    ensures (HoursStarted(d) - 1) * HOUR < d <= HoursStarted(d) * HOUR
  {
  }

  /** The `ceil` over seconds counts started hours. */
  lemma CeilIsHoursStarted(r: Range)
    ensures CeilOf(Seconds(r) / 3600.0) == HoursStarted(r.hi - r.lo)
  {
    var d := r.hi - r.lo;
    HoursStartedBounds(d);
    var q := HoursStarted(d);
    var x := Seconds(r) / 3600.0;
    assert x == d as real / 3600000000.0;
    assert (q - 1) as real < x <= q as real;
  }
}
