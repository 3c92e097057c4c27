/**
 * The arithmetic captcha of the portal's login page: the texts of the labels
 * holding the first number, the operator and the second number, and the
 * answer the login form must carry.
 */
module Captcha {
  import opened Wrappers
  import opened Text
  import opened Errors

  /** A solved challenge: the two operands as read and the answer. */
  datatype Solved = Solved(first: int, second: int, answer: int)

  const NumbersFailure :=
    Failure(500, "Could Not Extract Captcha Numbers",
            "Failed to parse the captcha. The portal's structure might have changed.", None)

  const OperatorFailure :=
    Failure(500, "Captcha Operator Not Supported", "An unexpected captcha format was encountered.", None)

  /**
   * The switch on the operator, once both operands have been read. The
   * operands are checked first, so an unreadable operand is reported
   * whatever the operator is; an operator other than `+` and `-` is refused.
   */
  function Apply(num1: Option<int>, op: string, num2: Option<int>): (r: Result<Solved, Failure>)
    ensures num1.None? || num2.None? ==> r == Err(NumbersFailure)
    ensures r == Err(OperatorFailure) <==> num1.Some? && num2.Some? && op != "+" && op != "-"
    ensures r.Ok? <==> num1.Some? && num2.Some? && (op == "+" || op == "-")
    ensures r.Ok? ==> num1 == Some(r.value.first) && num2 == Some(r.value.second)
    ensures r.Ok? ==> r.value.answer == if op == "+" then r.value.first + r.value.second
                                        else r.value.first - r.value.second
  {
    if num1.None? || num2.None? then Err(NumbersFailure)
    else if op == "+" then Ok(Solved(num1.value, num2.value, num1.value + num2.value))
    else if op == "-" then Ok(Solved(num1.value, num2.value, num1.value - num2.value))
    else Err(OperatorFailure)
  }

  /** The captcha step: each label text is trimmed and the operands are read
      with `parseInt` before the switch. */
  function Solve(firstText: string, operatorText: string, secondText: string): (r: Result<Solved, Failure>)
    ensures r == Err(NumbersFailure) <==> ParseInt(Trim(firstText)).None? || ParseInt(Trim(secondText)).None?
    ensures r.Ok? ==> Some(r.value.first) == ParseInt(Trim(firstText))
                      && Some(r.value.second) == ParseInt(Trim(secondText))
  {
    Apply(ParseInt(Trim(firstText)), Trim(operatorText), ParseInt(Trim(secondText)))
  }

  lemma ReadPadded(x: int, lead: string, trail: string)
    requires AllSpace(lead) && AllSpace(trail)
    ensures ParseInt(Trim(lead + Show(x) + trail)) == Some(x)
  {
    ShowTrimmed(x);
    TrimPadded(lead, Show(x), trail);
    ParseShow(x, []);
    assert Show(x) + [] == Show(x);
  }

  lemma OperatorPadded(op: string, lead: string, trail: string)
    requires AllSpace(lead) && AllSpace(trail) && (op == "+" || op == "-")
    ensures Trim(lead + op + trail) == op
  {
    assert !IsSpace(op[0]);
    TrimPadded(lead, op, trail);
  }

  /**
   * A challenge showing `x + y` or `x - y`, each of the three labels with any
   * whitespace before and after its text, is answered with the sum or the
   * difference.
   */
  lemma SolveShownChallenge(x: int, y: int, plus: bool, pads: seq<string>)
    requires |pads| == 6 && forall k :: 0 <= k < 6 ==> AllSpace(pads[k])
    ensures Solve(pads[0] + Show(x) + pads[1], pads[2] + (if plus then "+" else "-") + pads[3],
                  pads[4] + Show(y) + pads[5])
            == Ok(Solved(x, y, if plus then x + y else x - y))
  {
    assert Apply(Some(x), if plus then "+" else "-", Some(y)) == Ok(Solved(x, y, if plus then x + y else x - y));
    ReadPadded(x, pads[0], pads[1]);
    ReadPadded(y, pads[4], pads[5]);
    OperatorPadded(if plus then "+" else "-", pads[2], pads[3]);
  }
}
