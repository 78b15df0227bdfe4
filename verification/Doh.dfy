/** The DNS-over-HTTPS codec: building an HTTPS query, and finding the ECH configuration in a
    response (sections 4.1 and 4.1.4 of RFC 1035, section 2.2 of RFC 9460).

    Texts are their UTF-8 bytes. The parser is specified on the bytes that remain, and checked
    against a serializer of whole responses. */
module Doh {
  import opened Prelude

  const RR_TYPE_HTTPS: u16 := 65

  const SVCPARAM_ECH: u16 := 5

  const DOT: byte := 46

  const MAX_LABEL := 63

  const POINTER_BITS := 0xC0

  datatype Field =
    | Id | Flags | QdCount | AnCount | OtherCounts
    | QuestionName | QuestionRest
    | AnswerName | AnswerType | AnswerClass | AnswerLength | AnswerData

  datatype DohError = BadLabel | Truncated(field: Field) | Rcode(code: nat)

  // ---- The cursor ----

  lemma DropTwice(s: bytes, n: nat)
    requires 1 + n <= |s|
    ensures s[1..][n..] == s[1 + n..]
  {
  }

  function LabelEnd(s: bytes): nat
    requires s != []
  {
    var length: nat := s[0];
    1 + length
  }

  /** What is left after a name: labels up to a zero byte, or up to a two-byte pointer. A length
      from 64 to 191 is taken for a label too. */
  function AfterName(s: bytes): (r: Option<bytes>)
    ensures r.Some? ==> |r.value| < |s|
    decreases |s|
  {
    if s == [] then None
    else if s[0] == 0 then Some(s[1..])
    else if s[0] >= POINTER_BITS then if |s| >= 2 then Some(s[2..]) else None
    else if |s| < LabelEnd(s) then None
    else AfterName(s[LabelEnd(s)..])
  }

  class Cur {
    const b: bytes
    var pos: nat

    ghost predicate Valid()
      reads this
    {
      pos <= |b|
    }

    function Rest(): bytes
      requires Valid()
      reads this
    {
      b[pos..]
    }

    constructor (b: bytes)
      ensures Valid() && Rest() == b && this.b == b
    {
      this.b, pos := b, 0;
    }

    method U8() returns (r: Option<byte>)
      requires Valid()
      modifies this
      ensures Valid()
      ensures match r
        case Some(v) => old(Rest()) == [v] + Rest()
        case None => old(Rest()) == []
    {
      if pos >= |b| {
        return None;
      }
      r := Some(b[pos]);
      pos := pos + 1;
    }

    method U16() returns (r: Option<u16>)
      requires Valid()
      modifies this
      ensures Valid()
      ensures match r
        case Some(v) =>
          && |old(Rest())| >= 2 && v == FromBe16(old(Rest())[0], old(Rest())[1])
          && Rest() == old(Rest())[2..]
        case None => |old(Rest())| < 2
    {
      var hi := U8();
      if hi.None? {
        return None;
      }
      var lo := U8();
      if lo.None? {
        return None;
      }
      r := Some(FromBe16(hi.value, lo.value));
    }

    method Skip(n: nat) returns (ok: bool)
      requires Valid()
      modifies this
      ensures Valid() && (ok <==> n <= |old(Rest())|)
      ensures Rest() == if ok then old(Rest())[n..] else old(Rest())
    {
      if pos + n > |b| {
        return false;
      }
      pos := pos + n;
      ok := true;
    }

    method Take(n: nat) returns (r: Option<bytes>)
      requires Valid()
      modifies this
      ensures Valid() && (r.Some? <==> n <= |old(Rest())|)
      ensures r.Some? ==> |r.value| == n && old(Rest()) == r.value + Rest()
    {
      if pos + n > |b| {
        return None;
      }
      r := Some(b[pos..pos + n]);
      pos := pos + n;
    }

    /** One length byte, and the label or pointer it announces. */
    method SkipPart() returns (r: Option<bool>)
      requires Valid()
      modifies this
      ensures Valid()
      ensures var s := old(Rest());
        match r
        case None => AfterName(s) == None
        case Some(last) => |Rest()| < |s| && AfterName(s) == if last then Some(Rest()) else AfterName(Rest())
    {
      var len := U8();
      if len.None? {
        return None;
      }
      if len.value == 0 {
        return Some(true);
      }
      if len.value >= POINTER_BITS {
        var low := U8();
        return if low.Some? then Some(true) else None;
      }
      ghost var before := [len.value] + Rest();
      var skipped := Skip(len.value);
      if !skipped {
        return None;
      }
      DropTwice(before, len.value);
      r := Some(false);
    }

    method SkipName() returns (ok: bool)
      requires Valid()
      modifies this
      ensures Valid() && (if ok then AfterName(old(Rest())) == Some(Rest()) else AfterName(old(Rest())) == None)
    {
      hide AfterName;
      ghost var start := Rest();
      while true
        invariant Valid() && AfterName(Rest()) == AfterName(start)
        decreases |Rest()|
      {
        var part := SkipPart();
        if part.None? {
          return false;
        }
        if part.value {
          return true;
        }
      }
    }
  }

  // ---- Finding the ECH configuration ----

  /** What is left after an uncompressed target name. */
  function AfterTarget(s: bytes): (r: Option<bytes>)
    ensures r.Some? ==> |r.value| < |s|
    decreases |s|
  {
    if s == [] then None
    else if s[0] == 0 then Some(s[1..])
    else if |s| < LabelEnd(s) then None
    else AfterTarget(s[LabelEnd(s)..])
  }

  function ParamLength(s: bytes): nat
    requires |s| >= 4
  {
    FromBe16(s[2], s[3])
  }

  /** The value of the first ECH parameter; a parameter cut short ends the search. */
  function EchParam(s: bytes): Option<bytes>
    decreases |s|
  {
    if |s| < 4 || |s| < 4 + ParamLength(s) then None
    else if FromBe16(s[0], s[1]) == SVCPARAM_ECH then Some(s[4..4 + ParamLength(s)])
    else EchParam(s[4 + ParamLength(s)..])
  }

  function EchOfRdata(rdata: bytes): Option<bytes> {
    if |rdata| < 2 || FromBe16(rdata[0], rdata[1]) == 0 then None
    else
      var target := AfterTarget(rdata[2..]);
      if target.None? then None else EchParam(target.value)
  }

  method SkipTarget(c: Cur) returns (ok: bool)
    requires c.Valid()
    modifies c
    ensures c.Valid()
    ensures AfterTarget(old(c.Rest())) == if ok then Some(c.Rest()) else None
  {
    ghost var start := c.Rest();
    while true
      invariant c.Valid() && AfterTarget(c.Rest()) == AfterTarget(start)
      decreases |c.b| - c.pos
    {
      var len := c.U8();
      if len.None? {
        return false;
      }
      if len.value == 0 {
        return true;
      }
      ghost var before := [len.value] + c.Rest();
      var skipped := c.Skip(len.value);
      if !skipped {
        return false;
      }
      DropTwice(before, len.value);
    }
  }

  method FindParam(c: Cur) returns (r: Option<bytes>)
    requires c.Valid()
    modifies c
    ensures r == EchParam(old(c.Rest()))
  {
    ghost var start := c.Rest();
    while c.pos < |c.b|
      invariant c.Valid() && EchParam(start) == EchParam(c.Rest())
      decreases |c.b| - c.pos
    {
      ghost var s := c.Rest();
      var key := c.U16();
      if key.None? {
        return None;
      }
      var len := c.U16();
      if len.None? {
        return None;
      }
      assert c.Rest() == s[4..];
      var val := c.Take(len.value);
      if val.None? {
        return None;
      }
      assert val.value == s[4..4 + ParamLength(s)] && c.Rest() == s[4 + ParamLength(s)..];
      if key.value == SVCPARAM_ECH {
        return val;
      }
    }
    r := None;
  }

  method EchFromHttpsRdata(rdata: bytes) returns (r: Option<bytes>)
    ensures r == EchOfRdata(rdata)
  {
    var c := new Cur(rdata);
    var priority := c.U16();
    if priority.None? || priority.value == 0 {
      return None;
    }
    var skipped := SkipTarget(c);
    if !skipped {
      return None;
    }
    r := FindParam(c);
  }

  function AfterQuestions(s: bytes, n: nat): Result<bytes, DohError>
    decreases n
  {
    if n == 0 then Ok(s)
    else match AfterName(s)
      case None => Err(Truncated(QuestionName))
      case Some(rest) => if |rest| < 4 then Err(Truncated(QuestionRest)) else AfterQuestions(rest[4..], n - 1)
  }

  /** Type, class and TTL, length, data. */
  function ScanAnswers(s: bytes, n: nat): Result<Option<bytes>, DohError>
    decreases n
  {
    if n == 0 then Ok(None)
    else match AfterName(s)
      case None => Err(Truncated(AnswerName))
      case Some(rest) =>
        if |rest| < 2 then Err(Truncated(AnswerType))
        else if |rest| < 8 then Err(Truncated(AnswerClass))
        else if |rest| < 10 then Err(Truncated(AnswerLength))
        else
          var length: nat := FromBe16(rest[8], rest[9]);
          if |rest| < 10 + length then Err(Truncated(AnswerData))
          else
            var ech := if FromBe16(rest[0], rest[1]) == RR_TYPE_HTTPS then EchOfRdata(rest[10..10 + length]) else None;
            if ech.Some? then Ok(ech) else ScanAnswers(rest[10 + length..], n - 1)
  }

  function Extract(s: bytes): Result<Option<bytes>, DohError> {
    if |s| < 2 then Err(Truncated(Id))
    else if |s| < 4 then Err(Truncated(Flags))
    else if FromBe16(s[2], s[3]) % 16 != 0 then Err(Rcode(FromBe16(s[2], s[3]) % 16))
    else if |s| < 6 then Err(Truncated(QdCount))
    else if |s| < 8 then Err(Truncated(AnCount))
    else if |s| < 12 then Err(Truncated(OtherCounts))
    else match AfterQuestions(s[12..], FromBe16(s[4], s[5]))
      case Err(e) => Err(e)
      case Ok(rest) => ScanAnswers(rest, FromBe16(s[6], s[7]))
  }

  method SkipQuestions(c: Cur, n: nat) returns (error: Option<DohError>)
    requires c.Valid()
    modifies c
    ensures c.Valid()
    ensures AfterQuestions(old(c.Rest()), n) == if error.Some? then Err(error.value) else Ok(c.Rest())
  {
    ghost var start := c.Rest();
    var i := 0;
    while i < n
      invariant 0 <= i <= n && c.Valid() && AfterQuestions(start, n) == AfterQuestions(c.Rest(), n - i)
    {
      var named := c.SkipName();
      if !named {
        return Some(Truncated(QuestionName));
      }
      var skipped := c.Skip(4);
      if !skipped {
        return Some(Truncated(QuestionRest));
      }
      i := i + 1;
    }
    error := None;
  }

  /** One answer after its owner name: its type and data. */
  method ReadAnswer(c: Cur) returns (r: Result<(u16, bytes), DohError>)
    requires c.Valid()
    modifies c
    ensures c.Valid()
    ensures var s := old(c.Rest());
      if |s| < 2 then r == Err(Truncated(AnswerType))
      else if |s| < 8 then r == Err(Truncated(AnswerClass))
      else if |s| < 10 then r == Err(Truncated(AnswerLength))
      else
        var length: nat := FromBe16(s[8], s[9]);
        if |s| < 10 + length then r == Err(Truncated(AnswerData))
        else r == Ok((FromBe16(s[0], s[1]), s[10..10 + length])) && c.Rest() == s[10 + length..]
  {
    ghost var s := c.Rest();
    var rtype := c.U16();
    if rtype.None? {
      return Err(Truncated(AnswerType));
    }
    var skipped := c.Skip(6);
    if !skipped {
      return Err(Truncated(AnswerClass));
    }
    assert c.Rest() == s[8..];
    var length := c.U16();
    if length.None? {
      return Err(Truncated(AnswerLength));
    }
    assert c.Rest() == s[10..];
    var rdata := c.Take(length.value);
    if rdata.None? {
      return Err(Truncated(AnswerData));
    }
    assert rdata.value == s[10..10 + length.value] && c.Rest() == s[10 + length.value..];
    r := Ok((rtype.value, rdata.value));
  }

  method FindInAnswers(c: Cur, n: nat) returns (r: Result<Option<bytes>, DohError>)
    requires c.Valid()
    modifies c
    ensures r == ScanAnswers(old(c.Rest()), n)
  {
    hide EchOfRdata, AfterName;
    ghost var start := c.Rest();
    var i := 0;
    while i < n
      invariant 0 <= i <= n && c.Valid() && ScanAnswers(start, n) == ScanAnswers(c.Rest(), n - i)
    {
      var named := c.SkipName();
      if !named {
        return Err(Truncated(AnswerName));
      }
      var answer := ReadAnswer(c);
      if answer.Err? {
        return Err(answer.error);
      }
      if answer.value.0 == RR_TYPE_HTTPS {
        var ech := EchFromHttpsRdata(answer.value.1);
        if ech.Some? {
          return Ok(ech);
        }
      }
      i := i + 1;
    }
    r := Ok(None);
  }

  method ExtractEch(response: bytes) returns (r: Result<Option<bytes>, DohError>)
    ensures r == Extract(response)
  {
    hide AfterQuestions, ScanAnswers;
    var c := new Cur(response);
    var id := c.U16();
    if id.None? {
      return Err(Truncated(Id));
    }
    var flags := c.U16();
    if flags.None? {
      return Err(Truncated(Flags));
    }
    var rcode := flags.value % 16;
    if rcode != 0 {
      return Err(Rcode(rcode));
    }
    var qd := c.U16();
    if qd.None? {
      return Err(Truncated(QdCount));
    }
    var an := c.U16();
    if an.None? {
      return Err(Truncated(AnCount));
    }
    assert c.Rest() == response[8..];
    var skipped := c.Skip(4);
    if !skipped {
      return Err(Truncated(OtherCounts));
    }
    assert c.Rest() == response[12..];
    var questions := SkipQuestions(c, qd.value);
    if questions.Some? {
      return Err(questions.value);
    }
    r := FindInAnswers(c, an.value);
  }
}
