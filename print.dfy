/**
 * The value printer of print.c (print_obj, print_list, print_label). What
 * the C code writes with printf is returned here as a string.
 */
module Print {
  import opened Objects
  import opened Chars

  function DigitChar(d: int): (c: char)
    requires 0 <= d < 10
    ensures IsDigit(c) && DigitValue(c) == d
  {
    ('0' as int + d) as char
  }

  /** The decimal numeral of `n`: digits only, with no leading zero except for 0 itself. */
  function NatToString(n: nat): (s: string)
    ensures |s| > 0
    ensures AllDigits(s)
    ensures |s| > 1 ==> s[0] != '0'
    decreases n
  {
    if n < 10 then [DigitChar(n)] else NatToString(n / 10) + [DigitChar(n % 10)]
  }

  /** Reading the numeral of `n` back as decimal digits gives `n`. */
  lemma {:induction false} DecimalOfNumeral(n: nat)
    ensures DecimalValue(NatToString(n)) == n
    decreases n
  {
    if n >= 10 {
      DecimalOfNumeral(n / 10);
      var s := NatToString(n);
      assert s[..|s| - 1] == NatToString(n / 10);
    }
  }

  /** What `%d` prints for `n`: the numeral of its magnitude, after a `-` when `n` is negative. */
  function IntToString(n: int): (s: string)
    ensures |s| > 0
  {
    if n < 0 then "-" + NatToString(-n) else NatToString(n)
  }

  /**
   * `IntToString` prints exactly `n`: a non-negative number as its decimal
   * digits with no leading zero, a negative one as `-` and the digits of
   * its magnitude.
   */
  lemma IntNumeral(n: int)
    ensures var s := IntToString(n);
      (n >= 0 ==> AllDigits(s) && DecimalValue(s) == n && (|s| > 1 ==> s[0] != '0')) &&
      (n < 0 ==> |s| > 1 && s[0] == '-' && AllDigits(s[1..]) && DecimalValue(s[1..]) == -n &&
                 (|s| > 2 ==> s[1] != '0'))
  {
    var s := IntToString(n);
    if n < 0 {
      var m := NatToString(-n);
      DecimalOfNumeral(-n);
      assert s == "-" + m;
      assert s[1..] == m;
    } else {
      DecimalOfNumeral(n);
      assert s == NatToString(n);
    }
  }

  /** print_label: the label's name and a space; labels it does not know print "UNKNOWN LABEL ". */
  function PrintLabel(l: Label): (s: string)
    ensures |s| > 0 && s[|s| - 1] == ' '
  {
    match l
    case Done => "DONE "
    case IfDecide => "IF_DECIDE "
    case DidAssVal => "DID_ASS_VAL "
    case DidDefVal => "DID_DEF_VAL "
    case DidFunc => "DID_FUNC "
    case AccArg => "ACC_ARG "
    case DidLastArg => "DID_LAST_ARG "
    case SeqCont => "SEQ_CONT "
    case AltSeqCont => "ALT_SEQ_CONT "
    case OtherLabel(_) => "UNKNOWN LABEL "
  }

  /**
   * print_obj. Every printing is self-delimiting: it is never empty and it
   * ends with a space or with the `)` that closes a list.
   */
  function PrintObj(v: Value): (s: string)
    ensures |s| > 0 && (s[|s| - 1] == ' ' || s[|s| - 1] == ')')
    decreases v, 1
  {
    match v
    case Num(n) => IntToString(n) + " "
    case Name(name) => name + " "
    case List(items) => "( " + PrintList(items)
    case Func(_) => ":func: "
    case EnvObj(_) => "env "
    case LabelObj(l) => PrintLabel(l)
    case Dummy => "DUMMY "
    case Uninit => "*** "
  }

  /** print_list: each element's printing in order, then the closing `)`. */
  function PrintList(items: seq<Value>): (s: string)
    ensures |s| > 0 && s[|s| - 1] == ')'
    decreases items, 0
  {
    if items == [] then ")" else PrintObj(items[0]) + PrintList(items[1..])
  }
}
