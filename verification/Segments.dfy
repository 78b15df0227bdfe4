/** Segment paths of the tunnel: the client builds them from a session's identifier, the server
    parses them back under the request's method. */
module Segments {
  import opened Prelude
  import opened Admission

  datatype Method = GET | POST | OtherMethod

  const SLASH := '/'

  function DigitValue(c: char): Option<nat> {
    if '0' <= c <= '9' then Some((c - '0') as nat) else None
  }

  /** The number a string of decimal digits stands for. */
  function DigitsValue(s: string): Option<nat> {
    if s == [] then Some(0)
    else
      var front, last := DigitsValue(s[..|s| - 1]), DigitValue(s[|s| - 1]);
      if front.None? || last.None? then None else Some(10 * front.value + last.value)
  }

  /** The standard parser: an optional plus sign, then digits, within 64 bits. */
  function ParseU64(s: string): Option<u64> {
    var digits := if s != [] && s[0] == '+' then s[1..] else s;
    var v := DigitsValue(digits);
    if digits == [] || v.None? || v.value > U64_MAX then None else Some(v.value)
  }

  function Decimal(n: nat): (r: string)
    ensures r != []
  {
    (if n < 10 then [] else Decimal(n / 10)) + ['0' + (n % 10) as char]
  }

  lemma {:induction false} DecimalParses(n: nat)
    ensures DigitsValue(Decimal(n)) == Some(n)
    ensures forall i :: 0 <= i < |Decimal(n)| ==> '0' <= Decimal(n)[i] <= '9'
  {
    var last := '0' + (n % 10) as char;
    assert DigitValue(last) == Some(n % 10);
    var front := if n < 10 then [] else Decimal(n / 10);
    assert Decimal(n) == front + [last];
    assert Decimal(n)[..|Decimal(n)| - 1] == front;
    if n >= 10 {
      DecimalParses(n / 10);
    }
  }

  function ParseKind(kind: string, number: Option<string>, m: Method): Option<Direction> {
    if kind == "down" && number.None? && m.GET? then Some(Down)
    else if kind == "up" && number.None? && m.POST? then Some(Up)
    else if kind == "up" && number.Some? && m.POST? then
      match ParseU64(number.value)
      case Some(n) => Some(UpPacket(n))
      case None => None
    else None
  }

  function ParseSegments(path: string, base: string, m: Method): Option<(Pid, Direction)> {
    if !(base + [SLASH] <= path) then None
    else
      var parts := SplitOn(path[|base| + 1..], SLASH);
      if |parts| < 2 || parts[0] == [] || |parts| > 3 then None
      else
        match ParseKind(parts[1], if |parts| == 3 then Some(parts[2]) else None, m)
        case Some(dir) => Some((parts[0], dir))
        case None => None
  }

  function SegmentPath(base: string, parts: seq<string>): string
    requires parts != []
  {
    base + [SLASH] + JoinOn(parts, SLASH)
  }

  /** How a direction may be spelled after the identifier. */
  ghost predicate Spells(kind: seq<string>, dir: Direction) {
    match dir
    case Down => kind == ["down"]
    case Up => kind == ["up"]
    case UpPacket(n) => |kind| == 2 && kind[0] == "up" && SLASH !in kind[1] && ParseU64(kind[1]) == Some(n)
  }

  function MethodOf(dir: Direction): Method {
    if dir.Down? then GET else POST
  }

  lemma PlainKind(kind: seq<string>, dir: Direction)
    requires Spells(kind, dir)
    ensures NoneHolds(kind, SLASH)
  {
  }

  lemma SpellingParses(base: string, m: Method, pid: Pid, dir: Direction, kind: seq<string>)
    requires pid != [] && SLASH !in pid && m == MethodOf(dir) && Spells(kind, dir)
    ensures ParseSegments(SegmentPath(base, [pid] + kind), base, m) == Some((pid, dir))
  {
    hide ParseU64;
    PlainKind(kind, dir);
    SplitInvertsJoin([pid] + kind, SLASH);
    var path := SegmentPath(base, [pid] + kind);
    assert path[|base| + 1..] == JoinOn([pid] + kind, SLASH);
  }

  /** A path parses to an identifier and a direction exactly when it is the base, the identifier,
      which is not empty and holds no slash, and a spelling of the direction, under its method. */
  lemma ParsesExactlySpellings(path: string, base: string, m: Method, pid: Pid, dir: Direction)
    ensures ParseSegments(path, base, m) == Some((pid, dir)) <==>
      && pid != [] && SLASH !in pid && m == MethodOf(dir)
      && exists kind: seq<string> :: Spells(kind, dir) && path == SegmentPath(base, [pid] + kind)
  {
    if ParseSegments(path, base, m) == Some((pid, dir)) {
      var rest := path[|base| + 1..];
      var parts := SplitOn(rest, SLASH);
      SplitIsTheSplit(rest, SLASH);
      var kind := parts[1..];
      assert parts == [pid] + kind && SLASH !in parts[0];
      assert path == base + [SLASH] + rest;
      assert Spells(kind, dir) && path == SegmentPath(base, [pid] + kind);
    }
    if pid != [] && SLASH !in pid && m == MethodOf(dir) {
      forall kind: seq<string> | Spells(kind, dir) && path == SegmentPath(base, [pid] + kind)
        ensures ParseSegments(path, base, m) == Some((pid, dir))
      {
        SpellingParses(base, m, pid, dir, kind);
      }
    }
  }

  /** The path the client builds for a direction. */
  function ClientPath(base: string, pid: Pid, dir: Direction): string {
    SegmentPath(base, [pid] + match dir
      case Down => ["down"]
      case Up => ["up"]
      case UpPacket(n) => ["up", Decimal(n)])
  }

  /** What the client asks for is what the server understands. */
  lemma ClientPathsParse(base: string, pid: Pid, dir: Direction)
    requires pid != [] && SLASH !in pid
    ensures ParseSegments(ClientPath(base, pid, dir), base, MethodOf(dir)) == Some((pid, dir))
  {
    match dir
    case UpPacket(n) =>
      DecimalParses(n);
      SpellingParses(base, POST, pid, dir, ["up", Decimal(n)]);
    case Up => SpellingParses(base, POST, pid, dir, ["up"]);
    case Down => SpellingParses(base, GET, pid, dir, ["down"]);
  }
}
