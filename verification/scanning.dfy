/** `sscanf` as the bridge uses it: a format of `%d`/`%f` conversions and
    literal characters, applied left to right, stopping at the first
    conversion or literal that fails. How a single number is recognised
    (leading blanks, signs, exponents, float rounding) is not modelled: it is
    an abstract field scanner supplied by the caller. */
module Scanning {
  import opened Optional

  /** A converted value: `%d` yields an integer, `%f` a real. */
  datatype Number = IntNum(i: int) | RealNum(r: real)

  datatype Kind = IntKind | RealKind

  /** One element of a format string: a conversion or a literal character
      that must be the next input character. */
  datatype Directive = Conv(kind: Kind) | Lit(c: char)

  /** The field scanners behind `%d` and `%f`: on success, the value and
      how many input characters the conversion consumed. */
  datatype Scanner = Scanner(scanInt: string -> Option<(int, nat)>,
                             scanReal: string -> Option<(real, nat)>)

  function KindOf(v: Number): Kind {
    if v.IntNum? then IntKind else RealKind
  }

  /** The kinds of the conversions of a format, in order. */
  function Kinds(fmt: seq<Directive>): seq<Kind> {
    if fmt == [] then []
    else if fmt[0].Conv? then [fmt[0].kind] + Kinds(fmt[1..])
    else Kinds(fmt[1..])
  }

  /** The input left after consuming `n` characters (a scanner claiming
      more than is there consumes everything). */
  function Drop(s: string, n: nat): string {
    if n <= |s| then s[n..] else []
  }

  function ScanOneAt(k: Kind, input: string, sc: Scanner): Option<(Number, nat)> {
    match k
    case IntKind =>
      (match sc.scanInt(input)
       case None => None
       case Some(p) => Some((IntNum(p.0), p.1)))
    case RealKind =>
      (match sc.scanReal(input)
       case None => None
       case Some(p) => Some((RealNum(p.0), p.1)))
  }

  /** The values `sscanf` assigns; their count is its return value (the
      distinction between 0 and EOF is not kept: neither is ever accepted).
      Every value has the kind of the conversion it answers. */
  function ScanFormat(fmt: seq<Directive>, input: string, sc: Scanner): (r: seq<Number>)
    ensures |r| <= |Kinds(fmt)|
    ensures forall k :: 0 <= k < |r| ==> KindOf(r[k]) == Kinds(fmt)[k]
  {
    if fmt == [] then []
    else match fmt[0]
      case Lit(c) =>
        if input != [] && input[0] == c then ScanFormat(fmt[1..], input[1..], sc) else []
      case Conv(k) =>
        match ScanOneAt(k, input, sc)
        case None => []
        case Some(p) => [p.0] + ScanFormat(fmt[1..], Drop(input, p.1), sc)
  }

  /** `sscanf(text, "%d", &v) == 1`, with the value. */
  function ScanInt(text: string, sc: Scanner): Option<int> {
    match sc.scanInt(text)
    case None => None
    case Some(p) => Some(p.0)
  }

  /** `sscanf(text, "%f", &v) == 1`, with the value. */
  function ScanReal(text: string, sc: Scanner): Option<real> {
    match sc.scanReal(text)
    case None => None
    case Some(p) => Some(p.0)
  }

  /** The single-field conversions are the one-directive formats. */
  lemma SingleConversions(text: string, sc: Scanner)
    ensures ScanInt(text, sc).Some? <==> |ScanFormat([Conv(IntKind)], text, sc)| == 1
    ensures ScanInt(text, sc).Some? ==>
              ScanFormat([Conv(IntKind)], text, sc) == [IntNum(ScanInt(text, sc).value)]
    ensures ScanReal(text, sc).Some? <==> |ScanFormat([Conv(RealKind)], text, sc)| == 1
    ensures ScanReal(text, sc).Some? ==>
              ScanFormat([Conv(RealKind)], text, sc) == [RealNum(ScanReal(text, sc).value)]
  {
    assert [Conv(IntKind)][1..] == [];
    assert [Conv(RealKind)][1..] == [];
  }

  /** A literal that does not match ends the scan: nothing after it is
      converted. */
  lemma {:induction false} MismatchStops(c: char, fmt: seq<Directive>, input: string, sc: Scanner)
    requires input == [] || input[0] != c
    ensures ScanFormat([Lit(c)] + fmt, input, sc) == []
  {
    assert ([Lit(c)] + fmt)[0] == Lit(c);
  }
}
