/**
  Display formatting of a resolved field value (`formatDisplayValue`) and the
  one formatter that is plain string manipulation (`formatPhone`).
 */
module Formatting {
  import opened Text

  /**
    The formatters whose output depends on the platform: the label regex
    chain, `Intl.NumberFormat`, `Date` and floating point. The model passes
    them in and never looks inside.
   */
  datatype Platform = Platform(
    formatLabel: string -> string,
    formatCurrency: string -> string,
    formatDate: string -> string,
    formatDateTime: string -> string,
    formatPercent: string -> string)

  /** `value.replace(/\D/g, '')`: the ASCII digits of `s`, in order. */
  function Digits(s: string): (d: string)
    ensures |d| <= |s|
    ensures forall i :: 0 <= i < |d| ==> IsDigit(d[i])
    decreases |s|
  {
    if s == [] then "" else (if IsDigit(s[0]) then [s[0]] else "") + Digits(s[1..])
  }

  /** `Digits` keeps every digit of `s`, each as often as it occurs, and nothing else. */
  lemma {:induction false} DigitsKeepsEveryDigit(s: string, c: char)
    ensures IsDigit(c) ==> multiset(Digits(s))[c] == multiset(s)[c]
    ensures !IsDigit(c) ==> multiset(Digits(s))[c] == 0
    decreases |s|
  {
    if s != [] {
      assert s == [s[0]] + s[1..];
      DigitsKeepsEveryDigit(s[1..], c);
    }
  }

  lemma {:induction false} DigitsConcat(a: string, b: string)
    ensures Digits(a + b) == Digits(a) + Digits(b)
    decreases |a|
  {
    if a == [] {
      assert a + b == b;
    } else {
      assert (a + b)[1..] == a[1..] + b;
      DigitsConcat(a[1..], b);
    }
  }

  lemma {:induction false} DigitsOfDigits(s: string)
    requires forall i :: 0 <= i < |s| ==> IsDigit(s[i])
    ensures Digits(s) == s
    decreases |s|
  {
    if s != [] {
      DigitsOfDigits(s[1..]);
    }
  }

  /** `(a) b-c` */
  function PhoneText(a: string, b: string, c: string): string {
    "(" + a + ") " + b + "-" + c
  }

  lemma DigitsOfPhoneText(a: string, b: string, c: string)
    requires forall i :: 0 <= i < |a| ==> IsDigit(a[i])
    requires forall i :: 0 <= i < |b| ==> IsDigit(b[i])
    requires forall i :: 0 <= i < |c| ==> IsDigit(c[i])
    ensures Digits(PhoneText(a, b, c)) == a + b + c
  {
    var x1 := "(" + a;
    DigitsConcat("(", a);
    DigitsOfDigits(a);
    assert Digits(x1) == a;
    var x2 := x1 + ") ";
    DigitsConcat(x1, ") ");
    assert Digits(") ") == "";
    assert Digits(x2) == a;
    var x3 := x2 + b;
    DigitsConcat(x2, b);
    DigitsOfDigits(b);
    var x4 := x3 + "-";
    DigitsConcat(x3, "-");
    assert Digits(x4) == a + b;
    DigitsConcat(x4, c);
    DigitsOfDigits(c);
  }

  /**
    `formatPhone`: a value holding exactly ten digits becomes
    `(XXX) XXX-XXXX` built from those digits; any other value is returned
    unchanged.
   */
  function FormatPhone(value: string): (r: string)
    ensures |Digits(value)| == 10 ==>
              && |r| == 14
              && r[0] == '(' && r[4] == ')' && r[5] == ' ' && r[9] == '-'
              && Digits(r) == Digits(value)
    ensures |Digits(value)| != 10 ==> r == value
  {
    var d := Digits(value);
    if |d| == 10 then
      var a, b, c := d[..3], d[3..6], d[6..];
      DigitsOfPhoneText(a, b, c);
      assert d == a + b + c;
      var t := PhoneText(a, b, c);
      assert |t| == 14 && t[0] == '(' && t[4] == ')' && t[5] == ' ' && t[9] == '-';
      t
    else value
  }

  /** Formatting a phone number twice changes nothing more than formatting it once. */
  lemma FormatPhoneIdempotent(value: string)
    ensures FormatPhone(FormatPhone(value)) == FormatPhone(value)
  {
    var d := Digits(value);
    if |d| == 10 {
      var r := FormatPhone(value);
      assert Digits(r) == d;
    }
  }

  /** The column types `formatDisplayValue` hands to a platform formatter. */
  const PlatformTypes: set<string> := {"currency", "date", "datetime", "percent"}

  /**
    `formatDisplayValue(value, column)`: an empty value displays as `''`;
    otherwise the column type picks the formatter, `phone` uses
    `FormatPhone`, and every other type shows the value unchanged.
   */
  function FormatDisplayValue(p: Platform, value: string, columnType: string): (r: string)
    ensures value == "" ==> r == ""
    ensures value != "" && columnType == "phone" ==> r == FormatPhone(value)
    ensures value != "" && columnType !in PlatformTypes && columnType != "phone" ==> r == value
  {
    if value == "" then ""
    else if columnType == "currency" then p.formatCurrency(value)
    else if columnType == "date" then p.formatDate(value)
    else if columnType == "datetime" then p.formatDateTime(value)
    else if columnType == "percent" then p.formatPercent(value)
    else if columnType == "phone" then FormatPhone(value)
    else value
  }

  /**
    For every type the model can see into, a value displays as something
    non-empty exactly when the value itself is non-empty.
   */
  lemma DisplayValueEmptyIffValueEmpty(p: Platform, value: string, columnType: string)
    requires columnType !in PlatformTypes
    ensures FormatDisplayValue(p, value, columnType) == "" <==> value == ""
  {
    if value != "" && columnType == "phone" && |Digits(value)| == 10 {
      assert |FormatPhone(value)| == 14;
    }
  }
}
