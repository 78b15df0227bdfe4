/** Whole DNS messages and their wire form: what the DNS-over-HTTPS parser is meant to invert. */
module DohMessage {
  import opened Prelude
  import opened Doh

  // ---- Names ----

  function TrimDots(domain: bytes): bytes {
    if domain != [] && domain[|domain| - 1] == DOT then TrimDots(domain[..|domain| - 1]) else domain
  }

  /** The labels of a name without trailing dots. */
  function LabelsOf(domain: bytes): (r: seq<bytes>)
    ensures r != []
  {
    SplitOn(TrimDots(domain), DOT)
  }

  /** The domain is the name followed by dots only, and the name does not end in one. */
  ghost predicate WithoutTrailingDots(domain: bytes, name: bytes) {
    && name <= domain && (forall i :: |name| <= i < |domain| ==> domain[i] == DOT)
    && (name != [] ==> name[|name| - 1] != DOT)
  }

  lemma {:induction false} TrimsDots(domain: bytes, name: bytes)
    ensures WithoutTrailingDots(domain, name) <==> name == TrimDots(domain)
  {
    if domain != [] && domain[|domain| - 1] == DOT {
      var front := domain[..|domain| - 1];
      TrimsDots(front, name);
      if WithoutTrailingDots(domain, name) {
        assert name != domain;
        assert |name| < |domain|;
        assert name == domain[..|name|] == front[..|name|];
        assert forall i :: |name| <= i < |front| ==> front[i] == domain[i];
      }
      if WithoutTrailingDots(front, name) {
        assert forall i :: 0 <= i < |front| ==> domain[i] == front[i];
      }
    } else if WithoutTrailingDots(domain, name) {
      assert |name| == |domain|;
    }
  }

  /** The labels are the only pieces without a dot that join to the domain without its trailing
      dots. */
  lemma LabelsAreTheLabels(domain: bytes, labels: seq<bytes>)
    requires labels != []
    ensures labels == LabelsOf(domain) <==>
      NoneHolds(labels, DOT) && WithoutTrailingDots(domain, JoinOn(labels, DOT))
  {
    TrimsDots(domain, JoinOn(labels, DOT));
    SplitIsTheSplit(TrimDots(domain), DOT);
    if NoneHolds(labels, DOT) {
      SplitInvertsJoin(labels, DOT);
    }
  }

  predicate GoodLabel(piece: bytes) {
    1 <= |piece| <= MAX_LABEL
  }

  predicate GoodLabels(labels: seq<bytes>) {
    forall i :: 0 <= i < |labels| ==> GoodLabel(labels[i])
  }

  function LabelsWire(labels: seq<bytes>): bytes
    requires GoodLabels(labels)
  {
    if labels == [] then [] else [|labels[0]|] + labels[0] + LabelsWire(labels[1..])
  }

  lemma EmptyLabels()
    ensures LabelsWire([]) == []
  {
  }

  lemma {:induction false} LabelsSnoc(labels: seq<bytes>, piece: bytes)
    requires GoodLabels(labels) && GoodLabel(piece)
    ensures GoodLabels(labels + [piece])
    ensures LabelsWire(labels + [piece]) == LabelsWire(labels) + [|piece|] + piece
  {
    if labels == [] {
      assert [] + [piece] == [piece] && [piece][1..] == [];
      assert [] + [|piece|] + piece + [] == [|piece|] + piece;
    } else {
      LabelsSnoc(labels[1..], piece);
      assert (labels + [piece])[1..] == labels[1..] + [piece];
    }
  }

  method EncodeName(domain: bytes, out: bytes) returns (r: Result<bytes, DohError>)
    ensures var labels := LabelsOf(domain);
      r == if GoodLabels(labels) then Ok(out + LabelsWire(labels) + [0]) else Err(BadLabel)
  {
    var labels := LabelsOf(domain);
    var q := out;
    var i := 0;
    EmptyLabels();
    while i < |labels|
      invariant 0 <= i <= |labels| && GoodLabels(labels[..i]) && q == out + LabelsWire(labels[..i])
    {
      if labels[i] == [] || |labels[i]| > MAX_LABEL {
        assert !GoodLabel(labels[i]);
        return Err(BadLabel);
      }
      LabelsSnoc(labels[..i], labels[i]);
      assert labels[..i + 1] == labels[..i] + [labels[i]];
      q := q + [|labels[i]|];
      q := q + labels[i];
      i := i + 1;
    }
    assert labels[..i] == labels;
    q := q + [0];
    r := Ok(q);
  }

  /** An owner name: labels, then the root or a pointer to elsewhere in the message. */
  datatype OwnerName = OwnerName(labels: seq<bytes>, pointer: Option<nat>)

  predicate GoodName(n: OwnerName) {
    GoodLabels(n.labels) && (n.pointer.Some? ==> n.pointer.value < 0x4000)
  }

  function NameEnd(pointer: Option<nat>): bytes
    requires pointer.Some? ==> pointer.value < 0x4000
  {
    if pointer.None? then [0] else [POINTER_BITS + pointer.value / 0x100, pointer.value % 0x100]
  }

  function NameWire(n: OwnerName): bytes
    requires GoodName(n)
  {
    LabelsWire(n.labels) + NameEnd(n.pointer)
  }

  /** Skipping consumes a name exactly, compressed or not. */
  lemma {:induction false} NameSkipped(n: OwnerName, rest: bytes)
    requires GoodName(n)
    ensures AfterName(NameWire(n) + rest) == Some(rest)
    decreases |n.labels|
  {
    if n.labels == [] {
      EmptyLabels();
      assert NameWire(n) == NameEnd(n.pointer);
      assert (NameEnd(n.pointer) + rest)[|NameEnd(n.pointer)|..] == rest;
    } else {
      var inner := n.(labels := n.labels[1..]);
      NameSkipped(inner, rest);
      var s := NameWire(n) + rest;
      assert s == [|n.labels[0]|] + n.labels[0] + (NameWire(inner) + rest);
      assert s[LabelEnd(s)..] == NameWire(inner) + rest;
    }
  }

  lemma {:induction false} TargetSkipped(labels: seq<bytes>, rest: bytes)
    requires GoodLabels(labels)
    ensures AfterTarget(LabelsWire(labels) + [0] + rest) == Some(rest)
    decreases |labels|
  {
    var s := LabelsWire(labels) + [0] + rest;
    if labels == [] {
      EmptyLabels();
      assert s == [0] + rest && s[1..] == rest;
    } else {
      var tail := LabelsWire(labels[1..]) + [0] + rest;
      TargetSkipped(labels[1..], rest);
      assert s == [|labels[0]|] + labels[0] + tail;
      assert s[LabelEnd(s)..] == tail;
    }
  }

  /** The name skipper consumes exactly what the name encoder wrote. */
  lemma SkipInvertsEncode(domain: bytes, rest: bytes)
    requires GoodLabels(LabelsOf(domain))
    ensures AfterName(LabelsWire(LabelsOf(domain)) + [0] + rest) == Some(rest)
  {
    var n := OwnerName(LabelsOf(domain), None);
    NameSkipped(n, rest);
  }

  // ---- Messages ----

  datatype Param = Param(key: u16, value: bytes)

  /** An HTTPS record holds a priority, a target and parameters; of any other record only the
      type and the bytes matter. */
  datatype RData = Https(priority: u16, target: seq<bytes>, params: seq<Param>) | Other(rtype: u16, data: bytes)

  datatype Question = Question(name: OwnerName, typeAndClass: bytes)

  datatype Answer = Answer(owner: OwnerName, classAndTtl: bytes, rdata: RData)

  datatype Message = Message(
    id: u16, flags: u16, questions: seq<Question>, answers: seq<Answer>, otherCounts: bytes, others: bytes)

  function ParamWire(p: Param): bytes
    requires |p.value| <= U16_MAX
  {
    ToBe16(p.key) + ToBe16(|p.value|) + p.value
  }

  predicate GoodParams(ps: seq<Param>) {
    forall i :: 0 <= i < |ps| ==> |ps[i].value| <= U16_MAX
  }

  function ParamsWire(ps: seq<Param>): bytes
    requires GoodParams(ps)
  {
    if ps == [] then [] else ParamWire(ps[0]) + ParamsWire(ps[1..])
  }

  predicate GoodRData(r: RData) {
    match r
    case Https(_, target, params) => GoodLabels(target) && GoodParams(params)
    case Other(rtype, _) => rtype != RR_TYPE_HTTPS
  }

  function RDataWire(r: RData): bytes
    requires GoodRData(r)
  {
    match r
    case Https(priority, target, params) => ToBe16(priority) + (LabelsWire(target) + [0] + ParamsWire(params))
    case Other(_, data) => data
  }

  function TypeOf(r: RData): u16 {
    if r.Https? then RR_TYPE_HTTPS else r.rtype
  }

  predicate GoodAnswer(a: Answer) {
    GoodName(a.owner) && |a.classAndTtl| == 6 && GoodRData(a.rdata) && |RDataWire(a.rdata)| <= U16_MAX
  }

  function AnswerBody(a: Answer): bytes
    requires GoodAnswer(a)
  {
    ToBe16(TypeOf(a.rdata)) + a.classAndTtl + ToBe16(|RDataWire(a.rdata)|) + RDataWire(a.rdata)
  }

  predicate GoodAnswers(answers: seq<Answer>) {
    forall i :: 0 <= i < |answers| ==> GoodAnswer(answers[i])
  }

  function AnswersWire(answers: seq<Answer>): bytes
    requires GoodAnswers(answers)
  {
    if answers == [] then []
    else NameWire(answers[0].owner) + (AnswerBody(answers[0]) + AnswersWire(answers[1..]))
  }

  predicate GoodQuestion(q: Question) {
    GoodName(q.name) && |q.typeAndClass| == 4
  }

  predicate GoodQuestions(qs: seq<Question>) {
    forall i :: 0 <= i < |qs| ==> GoodQuestion(qs[i])
  }

  function QuestionsWire(qs: seq<Question>): bytes
    requires GoodQuestions(qs)
  {
    if qs == [] then [] else NameWire(qs[0].name) + (qs[0].typeAndClass + QuestionsWire(qs[1..]))
  }

  /** Well formed: everything within its field. The sections after the answers are free. */
  predicate GoodMessage(m: Message) {
    && GoodQuestions(m.questions) && |m.questions| <= U16_MAX
    && GoodAnswers(m.answers) && |m.answers| <= U16_MAX
    && |m.otherCounts| == 4
  }

  function HeaderWire(m: Message): (r: bytes)
    requires |m.questions| <= U16_MAX && |m.answers| <= U16_MAX && |m.otherCounts| == 4
    ensures |r| == 12
  {
    ToBe16(m.id) + ToBe16(m.flags) + ToBe16(|m.questions|) + ToBe16(|m.answers|) + m.otherCounts
  }

  function MessageWire(m: Message): bytes
    requires GoodMessage(m)
  {
    HeaderWire(m) + (QuestionsWire(m.questions) + (AnswersWire(m.answers) + m.others))
  }

  // ---- What the parser should find ----

  function ParamValue(ps: seq<Param>): Option<bytes> {
    if ps == [] then None else if ps[0].key == SVCPARAM_ECH then Some(ps[0].value) else ParamValue(ps[1..])
  }

  /** An AliasMode record, of priority 0, carries no parameters. */
  function EchOf(r: RData): Option<bytes> {
    if r.Https? && r.priority != 0 then ParamValue(r.params) else None
  }

  function FirstEch(answers: seq<Answer>): Option<bytes> {
    if answers == [] then None
    else if EchOf(answers[0].rdata).Some? then EchOf(answers[0].rdata)
    else FirstEch(answers[1..])
  }

  ghost predicate FirstParamAt(ps: seq<Param>, i: nat, value: bytes) {
    i < |ps| && ps[i] == Param(SVCPARAM_ECH, value) && forall j :: 0 <= j < i ==> ps[j].key != SVCPARAM_ECH
  }

  lemma {:induction false} FirstParam(ps: seq<Param>)
    ensures ParamValue(ps).None? <==> forall i :: 0 <= i < |ps| ==> ps[i].key != SVCPARAM_ECH
    ensures ParamValue(ps).Some? ==> exists i: nat :: FirstParamAt(ps, i, ParamValue(ps).value)
  {
    if ps != [] {
      FirstParam(ps[1..]);
      assert forall i :: 1 <= i < |ps| ==> ps[i] == ps[1..][i - 1];
      if ps[0].key == SVCPARAM_ECH {
        assert FirstParamAt(ps, 0, ps[0].value);
      } else if ParamValue(ps).Some? {
        var i: nat :| FirstParamAt(ps[1..], i, ParamValue(ps).value);
        assert FirstParamAt(ps, i + 1, ParamValue(ps).value);
      }
    }
  }

  ghost predicate FirstRecordAt(answers: seq<Answer>, i: nat, value: bytes) {
    && i < |answers| && EchOf(answers[i].rdata) == Some(value)
    && forall j :: 0 <= j < i ==> EchOf(answers[j].rdata).None?
  }

  /** The value found is that of the first record that has one. */
  lemma {:induction false} FirstRecord(answers: seq<Answer>)
    ensures FirstEch(answers).None? <==> forall i :: 0 <= i < |answers| ==> EchOf(answers[i].rdata).None?
    ensures FirstEch(answers).Some? ==> exists i: nat :: FirstRecordAt(answers, i, FirstEch(answers).value)
  {
    hide EchOf;
    if answers != [] {
      FirstRecord(answers[1..]);
      assert forall i :: 1 <= i < |answers| ==> answers[i] == answers[1..][i - 1];
      if EchOf(answers[0].rdata).Some? {
        assert FirstRecordAt(answers, 0, FirstEch(answers).value);
      } else if FirstEch(answers).Some? {
        var i: nat :| FirstRecordAt(answers[1..], i, FirstEch(answers).value);
        assert FirstRecordAt(answers, i + 1, FirstEch(answers).value);
      }
    }
  }

  lemma {:induction false} ParamsFound(ps: seq<Param>)
    requires GoodParams(ps)
    ensures EchParam(ParamsWire(ps)) == ParamValue(ps)
  {
    if ps != [] {
      var p, tail := ps[0], ParamsWire(ps[1..]);
      ParamsFound(ps[1..]);
      var s := ParamsWire(ps);
      Be16RoundTrip(p.key, 0, 0);
      Be16RoundTrip(|p.value|, 0, 0);
      assert s == ParamWire(p) + tail;
      assert s[0] == ToBe16(p.key)[0] && s[1] == ToBe16(p.key)[1];
      assert s[2] == ToBe16(|p.value|)[0] && s[3] == ToBe16(|p.value|)[1];
      assert s[4..4 + |p.value|] == p.value && s[4 + |p.value|..] == tail;
    }
  }

  lemma RDataFound(r: RData)
    requires GoodRData(r) && r.Https?
    ensures EchOfRdata(RDataWire(r)) == EchOf(r)
  {
    Be16RoundTrip(r.priority, 0, 0);
    var body := LabelsWire(r.target) + [0] + ParamsWire(r.params);
    assert RDataWire(r)[2..] == body;
    TargetSkipped(r.target, ParamsWire(r.params));
    ParamsFound(r.params);
  }

  lemma BodyFields(a: Answer, rest: bytes)
    requires GoodAnswer(a)
    ensures var s, n := AnswerBody(a) + rest, |RDataWire(a.rdata)|;
      && |s| == 10 + n + |rest|
      && FromBe16(s[0], s[1]) == TypeOf(a.rdata) && FromBe16(s[8], s[9]) == n
      && s[10..10 + n] == RDataWire(a.rdata) && s[10 + n..] == rest
  {
    hide RDataWire, GoodRData;
    var data := RDataWire(a.rdata);
    Be16RoundTrip(TypeOf(a.rdata), 0, 0);
    Be16RoundTrip(|data|, 0, 0);
    var s := AnswerBody(a) + rest;
    assert s[0] == ToBe16(TypeOf(a.rdata))[0] && s[1] == ToBe16(TypeOf(a.rdata))[1];
    assert s[8] == ToBe16(|data|)[0] && s[9] == ToBe16(|data|)[1];
  }

  lemma AnswerIsGood(a: Answer)
    requires GoodAnswer(a)
    ensures GoodName(a.owner) && GoodRData(a.rdata)
  {
  }

  lemma OtherHasNone(r: RData)
    requires GoodRData(r) && r.Other?
    ensures EchOf(r) == None && TypeOf(r) != RR_TYPE_HTTPS
  {
  }

  lemma {:induction false} AnswersScanned(answers: seq<Answer>, others: bytes)
    requires GoodAnswers(answers)
    ensures ScanAnswers(AnswersWire(answers) + others, |answers|) == Ok(FirstEch(answers))
  {
    hide AfterName, EchOfRdata, GoodName, NameWire, AnswerBody, RDataWire, EchOf, GoodRData;
    if answers != [] {
      var a, tail := answers[0], AnswersWire(answers[1..]) + others;
      AnswersScanned(answers[1..], others);
      AnswerIsGood(a);
      Assoc(NameWire(a.owner), AnswerBody(a) + AnswersWire(answers[1..]), others);
      Assoc(AnswerBody(a), AnswersWire(answers[1..]), others);
      NameSkipped(a.owner, AnswerBody(a) + tail);
      BodyFields(a, tail);
      if a.rdata.Https? {
        RDataFound(a.rdata);
      } else {
        OtherHasNone(a.rdata);
      }
    }
  }

  lemma DropHead(head: bytes, rest: bytes)
    ensures (head + rest)[|head|..] == rest
  {
  }

  lemma {:induction false} QuestionsSkipped(qs: seq<Question>, rest: bytes)
    requires GoodQuestions(qs)
    ensures AfterQuestions(QuestionsWire(qs) + rest, |qs|) == Ok(rest)
  {
    hide AfterName, GoodName, NameWire;
    if qs == [] {
      assert [] + rest == rest;
    } else {
      var q, wire := qs[0], QuestionsWire(qs[1..]);
      assert GoodQuestion(q);
      QuestionsSkipped(qs[1..], rest);
      Assoc(NameWire(q.name), q.typeAndClass + wire, rest);
      Assoc(q.typeAndClass, wire, rest);
      NameSkipped(q.name, q.typeAndClass + (wire + rest));
      DropHead(q.typeAndClass, wire + rest);
    }
  }

  lemma HeaderFields(m: Message, body: bytes)
    requires |m.questions| <= U16_MAX && |m.answers| <= U16_MAX && |m.otherCounts| == 4
    ensures var s := HeaderWire(m) + body;
      && FromBe16(s[2], s[3]) == m.flags && FromBe16(s[4], s[5]) == |m.questions| && FromBe16(s[6], s[7]) == |m.answers|
      && s[12..] == body
  {
    Be16RoundTrip(m.flags, 0, 0);
    Be16RoundTrip(|m.questions|, 0, 0);
    Be16RoundTrip(|m.answers|, 0, 0);
    hide FromBe16;
    var s := HeaderWire(m) + body;
    assert s[2] == ToBe16(m.flags)[0] && s[3] == ToBe16(m.flags)[1];
    assert s[4] == ToBe16(|m.questions|)[0] && s[5] == ToBe16(|m.questions|)[1];
    assert s[6] == ToBe16(|m.answers|)[0] && s[7] == ToBe16(|m.answers|)[1];
  }

  /** On every well-formed response the parser finds the ECH value of the first ServiceMode HTTPS
      record that has one, or that there is none; a response code is an error. */
  lemma ExtractInvertsWire(m: Message)
    requires GoodMessage(m)
    ensures Extract(MessageWire(m)) == if m.flags % 16 != 0 then Err(Rcode(m.flags % 16)) else Ok(FirstEch(m.answers))
  {
    hide AfterQuestions, ScanAnswers, GoodQuestions, GoodAnswers, QuestionsWire, AnswersWire;
    var body := QuestionsWire(m.questions) + (AnswersWire(m.answers) + m.others);
    HeaderFields(m, body);
    QuestionsSkipped(m.questions, AnswersWire(m.answers) + m.others);
    AnswersScanned(m.answers, m.others);
  }

  // ---- Names and messages that are not as they should be ----

  /** The skipper takes any length up to 191 for a label's, the reserved ones from 64 on included; in
      a target name it takes every length for one. */
  lemma SkipsAnyLabel(piece: bytes, rest: bytes)
    requires 1 <= |piece| < 0x100
    ensures |piece| < 0xC0 ==> AfterName([|piece|] + piece + rest) == AfterName(rest)
    ensures AfterTarget([|piece|] + piece + rest) == AfterTarget(rest)
  {
    var s := [|piece|] + piece + rest;
    assert s[LabelEnd(s)..] == rest;
  }

  /** A name cut short is not skipped. */
  lemma {:induction false} NameCut(n: OwnerName, k: nat)
    requires GoodName(n) && k < |NameWire(n)|
    ensures AfterName(NameWire(n)[..k]) == None
    decreases |n.labels|
  {
    var s := NameWire(n)[..k];
    if n.labels == [] {
      EmptyLabels();
      assert NameWire(n) == NameEnd(n.pointer);
    } else if k > 0 {
      var inner := n.(labels := n.labels[1..]);
      var head := 1 + |n.labels[0]|;
      assert NameWire(n) == [|n.labels[0]|] + n.labels[0] + NameWire(inner);
      if k >= head {
        NameCut(inner, k - head);
        assert s[LabelEnd(s)..] == NameWire(inner)[..k - head];
      }
    }
  }

  /** Where the first part ends, and what is left of the second, when their sequence is cut. */
  lemma CutTwo(a: bytes, b: bytes, k: nat)
    requires k <= |a + b|
    ensures k <= |a| ==> (a + b)[..k] == a[..k]
    ensures k >= |a| ==> (a + b)[..k] == a + b[..k - |a|]
  {
  }

  lemma {:induction false} QuestionsCut(qs: seq<Question>, k: nat)
    requires GoodQuestions(qs) && k < |QuestionsWire(qs)|
    ensures AfterQuestions(QuestionsWire(qs)[..k], |qs|).Err?
  {
    hide AfterName, GoodName, NameWire;
    var q, wire := qs[0], QuestionsWire(qs[1..]);
    assert GoodQuestion(q);
    var name := NameWire(q.name);
    CutTwo(name, q.typeAndClass + wire, k);
    if k < |name| {
      NameCut(q.name, k);
    } else {
      NameSkipped(q.name, (q.typeAndClass + wire)[..k - |name|]);
      CutTwo(q.typeAndClass, wire, k - |name|);
      if k - |name| >= 4 {
        QuestionsCut(qs[1..], k - |name| - 4);
        DropHead(q.typeAndClass, wire[..k - |name| - 4]);
      }
    }
  }

  lemma BodyCut(a: Answer, k: nat)
    requires GoodAnswer(a) && 10 <= k < |AnswerBody(a)|
    ensures var s := AnswerBody(a)[..k]; |AnswerBody(a)| == 10 + FromBe16(s[8], s[9])
  {
    BodyFields(a, []);
    assert AnswerBody(a) + [] == AnswerBody(a);
  }

  lemma {:induction false} AnswersCut(answers: seq<Answer>, k: nat)
    requires GoodAnswers(answers) && FirstEch(answers).None? && k < |AnswersWire(answers)|
    ensures ScanAnswers(AnswersWire(answers)[..k], |answers|).Err?
  {
    hide AfterName, EchOfRdata, GoodName, NameWire, AnswerBody, RDataWire, EchOf, GoodRData;
    var a, wire := answers[0], AnswersWire(answers[1..]);
    AnswerIsGood(a);
    var name, body := NameWire(a.owner), AnswerBody(a);
    CutTwo(name, body + wire, k);
    if k < |name| {
      NameCut(a.owner, k);
    } else {
      var n := k - |name|;
      NameSkipped(a.owner, (body + wire)[..n]);
      CutTwo(body, wire, n);
      BodyFields(a, []);
      assert body + [] == body;
      if n < |body| {
        if n >= 10 {
          BodyCut(a, n);
        }
      } else {
        BodyFields(a, wire[..n - |body|]);
        if a.rdata.Https? {
          RDataFound(a.rdata);
        } else {
          OtherHasNone(a.rdata);
        }
        AnswersCut(answers[1..], n - |body|);
      }
    }
  }

  /** The header field that byte `k` belongs to. */
  function HeaderFieldAt(k: nat): Field {
    if k < 2 then Id else if k < 4 then Flags else if k < 6 then QdCount else if k < 8 then AnCount else OtherCounts
  }

  lemma HeaderCut(s: bytes)
    requires |s| < 12 && (|s| >= 4 ==> FromBe16(s[2], s[3]) % 16 == 0)
    ensures Extract(s) == Err(Truncated(HeaderFieldAt(|s|)))
  {
  }

  /** A well-formed response without an ECH value, cut short anywhere before the end of its answers, is
      an error and never reads as one without the value; in the header the error names the field. */
  lemma CutIsAnError(m: Message, k: nat)
    requires GoodMessage(m) && m.flags % 16 == 0 && FirstEch(m.answers).None?
    requires k < 12 + |QuestionsWire(m.questions)| + |AnswersWire(m.answers)|
    ensures k <= |MessageWire(m)| && Extract(MessageWire(m)[..k]).Err?
    ensures k < 12 ==> Extract(MessageWire(m)[..k]) == Err(Truncated(HeaderFieldAt(k)))
  {
    hide AfterQuestions, ScanAnswers, GoodQuestions, GoodAnswers, QuestionsWire, AnswersWire, HeaderWire;
    var qs, rest := QuestionsWire(m.questions), AnswersWire(m.answers) + m.others;
    HeaderFields(m, qs + rest);
    CutTwo(HeaderWire(m), qs + rest, k);
    var s := MessageWire(m)[..k];
    assert forall i :: 0 <= i < k ==> s[i] == MessageWire(m)[i];
    if k < 12 {
      HeaderCut(s);
    } else {
      HeaderFields(m, (qs + rest)[..k - 12]);
      CutTwo(qs, rest, k - 12);
      if k - 12 < |qs| {
        QuestionsCut(m.questions, k - 12);
      } else {
        var n := k - 12 - |qs|;
        QuestionsSkipped(m.questions, rest[..n]);
        CutTwo(AnswersWire(m.answers), m.others, n);
        AnswersCut(m.answers, n);
      }
    }
  }

  // ---- The query ----

  /** The query is the message with the one question, recursion desired and nothing else. */
  function QueryFor(domain: bytes): Message {
    var question := Question(OwnerName(LabelsOf(domain), None), ToBe16(RR_TYPE_HTTPS) + [0, 1]);
    Message(0, 0x0100, [question], [], [0, 0, 0, 0], [])
  }

  lemma QueryShape(domain: bytes, header: bytes)
    requires GoodLabels(LabelsOf(domain))
    requires header == [0, 0] + [1, 0] + [0, 1] + [0, 0] + [0, 0] + [0, 0]
    ensures GoodMessage(QueryFor(domain))
    ensures MessageWire(QueryFor(domain)) ==
      header + LabelsWire(LabelsOf(domain)) + [0] + ToBe16(RR_TYPE_HTTPS) + [0, 1]
  {
    hide LabelsWire, LabelsOf;
    var m := QueryFor(domain);
    var q := m.questions[0];
    assert m.questions[1..] == [];
    assert QuestionsWire(m.questions) == NameWire(q.name) + (q.typeAndClass + QuestionsWire([]));
    assert HeaderWire(m) == header;
  }

  method BuildHttpsQuery(domain: bytes) returns (r: Result<bytes, DohError>)
    ensures r.Ok? <==> GoodLabels(LabelsOf(domain))
    ensures r.Ok? ==> GoodMessage(QueryFor(domain)) && r.value == MessageWire(QueryFor(domain))
    ensures r.Err? ==> r.error == BadLabel
  {
    var q: bytes := [0x00, 0x00];
    q := q + [0x01, 0x00];
    q := q + [0x00, 0x01];
    q := q + [0x00, 0x00];
    q := q + [0x00, 0x00];
    q := q + [0x00, 0x00];
    ghost var header := q;
    var named := EncodeName(domain, q);
    if named.Err? {
      return named;
    }
    q := named.value;
    q := q + ToBe16(RR_TYPE_HTTPS);
    q := q + [0x00, 0x01];
    QueryShape(domain, header);
    r := Ok(q);
  }
}
