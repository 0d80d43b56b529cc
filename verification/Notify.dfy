/**
  Reading a NOTIFY: the event and its id, the subscription state, and the status line in
  the body (ASCII texts). A notifier that writes what RFC 3515 and RFC 6665 ask for is
  understood exactly, and what it means for the transfer follows.
*/
module Notify {
  import opened Prelude
  import opened Text
  import opened SubscriptionState
  import Refer
  import Transfer

  datatype Error = NoEvent | UnknownEvent | NotEnoughTokens | WrongVersion | BadNumber | StatusOutOfRange
  datatype Result<+T> = Ok(value: T) | Err(error: Error)
  datatype Status = Status(code: nat, reason: string)
  datatype Info = Info(cseq: nat, status: Status, sub: Subscription)

  const MAX_UINT32 := 0xFFFF_FFFF
  const MAX_INT32 := 0x7FFF_FFFF

  /** A signed decimal number of 32 bits. */
  function ParseInt32(s: string): Option<int> {
    var negative := s != "" && s[0] == '-';
    var digits := if s != "" && (s[0] == '-' || s[0] == '+') then s[1..] else s;
    if !Digits(digits) || Value(digits) > (if negative then MAX_INT32 + 1 else MAX_INT32) then None
    else Some(if negative then 0 - Value(digits) else Value(digits))
  }

  /** The reason phrase ends at the first line break, with or without a carriage return before it. */
  function FirstLine(s: string): string {
    var i := Find(s, '\n');
    if i == |s| then s
    else if i > 0 && s[i-1] == '\r' then s[..i-1]
    else s[..i]
  }

  function ParseNotifyBody(body: string): (r: Result<Status>)
    ensures r.Ok? ==> 100 <= r.value.code <= 699
  {
    var i := Find(body, ' ');
    if i == |body| then Err(NotEnoughTokens)
    else
      var rest := body[i+1..];
      var j := Find(rest, ' ');
      if Lower(body[..i]) != "sip/2.0" then Err(WrongVersion)
      else
        match ParseInt32(rest[..j])
        case None => Err(BadNumber)
        case Some(code) =>
          if code < 100 || code > 699 then Err(StatusOutOfRange)
          else Ok(Status(code, if j == |rest| then "" else FirstLine(rest[j+1..])))
  }

  /** The REFER's CSeq from the event id, 0 if there is none; an id too large for 32 bits reads as the largest. */
  function ParseEvent(event: string): (r: Option<nat>)
    ensures r.Some? ==> r.value <= MAX_UINT32
  {
    var e := Lower(event);
    if e == "refer" then Some(0)
    else if |e| > 9 && e[..9] == "refer;id=" && Digits(e[9..]) then
      Some(if Value(e[9..]) > MAX_UINT32 then MAX_UINT32 else Value(e[9..]))
    else None
  }

  /** What is read is always something the transfer logic can classify; a broken body refuses the whole NOTIFY. */
  function HandleNotify(event: Option<string>, subscription: Option<string>, body: string): (r: Result<Info>)
    ensures r.Ok? ==> r.value.cseq <= MAX_UINT32 && (r.value.status.code == 0 || 100 <= r.value.status.code <= 699)
    ensures r.Ok? ==> (r.value.status.code == 0 <==> Trim(body) == "")
  {
    if event.None? then Err(NoEvent)
    else
      match ParseEvent(event.value)
      case None => Err(UnknownEvent)
      case Some(cseq) =>
        var sub := if subscription.None? then Subscription("", "", 0) else Read(subscription.value);
        if Trim(body) == "" then Ok(Info(cseq, Status(0, ""), sub))
        else
          match ParseNotifyBody(Trim(body))
          case Err(e) => Err(e)
          case Ok(status) => Ok(Info(cseq, status, sub))
  }

  // ---- what a notifier writes ----

  function EventText(id: Option<nat>): string {
    if id.None? then "refer" else "refer;id=" + Decimal(id.value)
  }

  /** A body: the status line, a line break, and anything after it. */
  function BodyText(proto: string, code: nat, reason: string, more: string): string {
    proto + [' '] + Decimal(code) + AfterCode(reason, more)
  }

  /** The protocol version, in any capitalisation. */
  predicate IsVersion(proto: string) { Lower(proto) == "sip/2.0" }

  lemma VersionIsAWord(proto: string)
    requires IsVersion(proto)
    ensures proto != "" && Trimmed(proto) && ' ' !in proto
  {
    forall i | 0 <= i < |proto| ensures !Space(proto[i]) {
      LowerCharKeeps(proto[i]);
      assert "sip/2.0"[i] == LowerChar(proto[i]);
    }
  }

  function AfterCode(reason: string, more: string): string {
    " " + reason + "\r\n" + more
  }

  /** The end of the text is all that trimming can take from a text that starts with something solid. */
  lemma {:induction false} TrimTail(a: string, tail: string) returns (k: nat)
    requires a != "" && Trimmed(a)
    ensures k <= |tail| && Trim(a + tail) == a + tail[..k]
    decreases |tail|
  {
    var s := a + tail;
    if tail == "" {
      assert s == a;
      k := 0;
    } else if Space(s[|s|-1]) {
      var shorter := tail[..|tail|-1];
      assert s[..|s|-1] == a + shorter;
      k := TrimTail(a, shorter);
      assert shorter[..k] == tail[..k];
    } else {
      k := |tail|;
      assert tail[..k] == tail;
    }
  }

  lemma DigitsHaveNo(s: string, c: char)
    requires Digits(s) && !('0' <= c <= '9')
    ensures c !in s
  {
  }

  /** What the three parts of a status line amount to. */
  function StatusFrom(proto: string, number: string, more: string): Result<Status> {
    if Lower(proto) != "sip/2.0" then Err(WrongVersion)
    else
      match ParseInt32(number)
      case None => Err(BadNumber)
      case Some(code) =>
        if code < 100 || code > 699 then Err(StatusOutOfRange)
        else Ok(Status(code, if more == "" then "" else FirstLine(more[1..])))
  }

  /** A word up to the first blank, a word up to the second, and the rest. */
  predicate Words(proto: string, number: string, more: string) {
    ' ' !in proto && ' ' !in number && (more == "" || more[0] == ' ')
  }

  lemma {:induction false} WordsRead(proto: string, number: string, more: string)
    requires Words(proto, number, more)
    ensures ParseNotifyBody(proto + [' '] + (number + more)) == StatusFrom(proto, number, more)
  {
    var rest := number + more;
    var body := proto + [' '] + rest;
    FindFirst(proto, ' ', rest);
    assert body[..|proto|] == proto && body[|proto|+1..] == rest;
    FindWord(number, more);
    assert rest[..|number|] == number;
    if more != "" {
      assert rest[|number|+1..] == more[1..];
    }
  }

  /** Every body at all: without a blank it is refused, and otherwise its words decide. */
  lemma {:induction false} BodyDecided(body: string) returns (proto: string, number: string, more: string)
    ensures ' ' !in body ==> ParseNotifyBody(body) == Err(NotEnoughTokens)
    ensures ' ' in body ==> body == proto + [' '] + (number + more) && Words(proto, number, more)
                            && ParseNotifyBody(body) == StatusFrom(proto, number, more)
  {
    if ' ' !in body {
      FindNone(body, ' ');
      proto, number, more := "", "", "";
    } else {
      var rest;
      proto, rest := CutAtBlank(body);
      number, more := NextWord(rest);
      WordsRead(proto, number, more);
    }
  }

  /** The text before the first blank and the text after it. */
  lemma {:induction false} CutAtBlank(s: string) returns (word: string, rest: string)
    requires ' ' in s
    ensures s == word + [' '] + rest && ' ' !in word
  {
    var i := Find(s, ' ');
    FindSplits(s, ' ');
    assert s[..|s|] == s;
    word, rest := s[..i], s[i+1..];
  }

  /** The text before the first blank, if any, and the text from it on. */
  lemma {:induction false} NextWord(s: string) returns (word: string, more: string)
    ensures s == word + more && ' ' !in word && (more == "" || more[0] == ' ')
  {
    var i := Find(s, ' ');
    FindSplits(s, ' ');
    word, more := s[..i], s[i..];
  }

  /** A status line, whatever follows its code. */
  lemma {:induction false} StatusLineReads(proto: string, code: nat, more: string)
    requires IsVersion(proto) && 100 <= code <= 699 && (more == "" || more[0] == ' ')
    ensures ParseNotifyBody(proto + [' '] + Decimal(code) + more) ==
            Ok(Status(code, if more == "" then "" else FirstLine(more[1..])))
  {
    var number := Decimal(code);
    DecimalReads(code);
    DigitsHaveNo(number, ' ');
    VersionIsAWord(proto);
    WordsRead(proto, number, more);
    Regroup3(proto + [' '], number, more);
  }

  lemma Regroup3(a: string, b: string, c: string)
    ensures a + b + c == a + (b + c)
  {
  }

  lemma Regroup5(h: string, b: string, r: string, n: string, m: string)
    ensures h + (b + r + n + m) == (h + b + r) + (n + m)
    ensures h + (b + (r + n + m)) == (h + b + r) + (n + m)
  {
    assert h + (b + (r + n + m)) == (h + b + r) + (n + m);
  }

  lemma {:induction false} FindWord(word: string, more: string)
    requires ' ' !in word && (more == "" || more[0] == ' ')
    ensures Find(word + more, ' ') == |word|
  {
    if more == "" {
      assert word + more == word;
      FindNone(word, ' ');
    } else {
      FindFirst(word, ' ', more[1..]);
      assert more == [' '] + more[1..];
      Regroup3(word, [' '], more[1..]);
    }
  }

  lemma FirstLineIs(reason: string, more: string)
    requires '\n' !in reason
    ensures FirstLine(reason) == reason
    ensures FirstLine(reason + "\r\n" + more) == reason
  {
    var s := reason + "\r\n" + more;
    FindNone(reason, '\n');
    FindFirst(reason + "\r", '\n', more);
    assert s == (reason + "\r") + ['\n'] + more;
    assert s[..|reason|] == reason;
  }

  /** Trimming takes a run of blanks away with all that follows, or leaves it. */
  lemma TrimBlanks(a: string, blanks: string, more: string) returns (gone: bool, m: string)
    requires a != "" && Trimmed(a) && forall c | c in blanks :: Space(c)
    ensures Trim(a + (blanks + more)) == if gone then a else a + (blanks + m)
  {
    var tail := blanks + more;
    var k := TrimTail(a, tail);
    var s := a + tail[..k];
    gone, m := k == 0, "";
    if gone {
      assert s == a;
    } else {
      assert s[|s|-1] == tail[k-1];
      m := more[..k-|blanks|];
      assert tail[..k] == blanks + m;
    }
  }

  /** What is left of the text after the code: nothing, or a blank and a text whose first line is the reason phrase. */
  predicate Carries(after: string, reason: string) {
    && (after == "" || after[0] == ' ')
    && reason == if after == "" then "" else FirstLine(after[1..])
  }

  lemma TrimmedWithoutReason(head: string, more: string) returns (after: string)
    requires head != "" && Trimmed(head)
    ensures Trim(head + AfterCode("", more)) == head + after && Carries(after, "")
  {
    var gone, m := TrimBlanks(head, " \r\n", more);
    after := if gone then "" else " \r\n" + m;
    assert AfterCode("", more) == " \r\n" + more;
    assert gone || after[1..] == "" + "\r\n" + m;
    assert head + after == if gone then head else head + (" \r\n" + m);
    FirstLineIs("", m);
  }

  lemma {:induction false} TrimmedWithReason(head: string, reason: string, more: string) returns (after: string)
    requires head != "" && Trimmed(head) && Trimmed(reason) && '\n' !in reason && reason != ""
    ensures Trim(head + AfterCode(reason, more)) == head + after && Carries(after, reason)
  {
    var a := head + " " + reason;
    assert a[|a|-1] == reason[|reason|-1] && a[0] == head[0];
    var gone, m := TrimBlanks(a, "\r\n", more);
    FirstLineIs(reason, m);
    Regroup5(head, " ", reason, "\r\n", more);
    if gone {
      after := " " + reason;
      Regroup3(head, " ", reason);
    } else {
      after := " " + (reason + "\r\n" + m);
      Regroup5(head, " ", reason, "\r\n", m);
    }
  }

  /** A status line, a line break and anything: the code and the reason phrase are read. */
  lemma {:induction false} BodyReads(proto: string, code: nat, reason: string, more: string)
    requires IsVersion(proto) && 100 <= code <= 699 && Trimmed(reason) && '\n' !in reason
    ensures ParseNotifyBody(Trim(BodyText(proto, code, reason, more))) == Ok(Status(code, reason))
  {
    var head := proto + [' '] + Decimal(code);
    DecimalReads(code);
    VersionIsAWord(proto);
    assert head[|head|-1] == Decimal(code)[|Decimal(code)|-1] && head[0] == proto[0];
    var after;
    if reason == "" {
      after := TrimmedWithoutReason(head, more);
    } else {
      after := TrimmedWithReason(head, reason, more);
    }
    StatusLineReads(proto, code, after);
  }

  lemma {:induction false} LowerKeeps(s: string)
    requires forall i | 0 <= i < |s| :: LowerChar(s[i]) == s[i]
    ensures Lower(s) == s
  {
  }

  /** An event with an id, whatever its digits. */
  lemma {:induction false} EventWithDigits(digits: string)
    requires Digits(digits)
    ensures ParseEvent("refer;id=" + digits) == Some(if Value(digits) > 0xFFFF_FFFF then 0xFFFF_FFFF else Value(digits))
  {
    var e := "refer;id=" + digits;
    LowerKeeps(e);
    assert e[..9] == "refer;id=" && e[9..] == digits;
  }

  lemma {:induction false} EventReads(id: Option<nat>)
    requires id.Some? ==> id.value <= MAX_UINT32
    ensures ParseEvent(EventText(id)) == Some(if id.None? then 0 else id.value)
  {
    if id.None? {
      LowerKeeps("refer");
    } else {
      DecimalReads(id.value);
      EventWithDigits(Decimal(id.value));
    }
  }

  /** Reading undoes writing: event id, status, reason phrase and subscription all come back. */
  lemma {:induction false} NotifyRoundTrip(proto: string, id: Option<nat>, sub: Subscription, code: nat,
                                           reason: string, more: string)
    requires id.Some? ==> id.value <= MAX_UINT32
    requires Clean(sub.state) && Clean(sub.reason) && sub.state != ""
    requires IsVersion(proto) && 100 <= code <= 699 && Trimmed(reason) && '\n' !in reason
    ensures HandleNotify(Some(EventText(id)), Some(Print(sub)), BodyText(proto, code, reason, more)) ==
            Ok(Info(if id.None? then 0 else id.value, Status(code, reason), sub.(expires := 0)))
  {
    EventReads(id);
    ReadPrint(sub);
    BodyReads(proto, code, reason, more);
  }

  function ToReferInfo(i: Info): Refer.NotifyInfo
    requires i.status.code == 0 || 100 <= i.status.code <= 699
  {
    Refer.NotifyInfo(i.cseq, i.status.code, Terminated(i.sub))
  }

  /**
    From text to outcome: a well-formed NOTIFY without an id, or with the REFER's own, ends the transfer exactly when
    its status is final or its subscription terminated, and ends it well exactly for 200. The RPC reports its code.
  */
  lemma {:induction false} TextDecidesTransfer(proto: string, id: Option<nat>, sub: Subscription, code: nat,
                                               reason: string, more: string, referCSeq: nat, callId: string)
    requires 0 < referCSeq <= MAX_UINT32 && id in {None, Some(referCSeq)}
    requires Clean(sub.state) && Clean(sub.reason) && sub.state != ""
    requires IsVersion(proto) && 100 <= code <= 699 && Trimmed(reason) && '\n' !in reason
    ensures var r := HandleNotify(Some(EventText(id)), Some(Print(sub)), BodyText(proto, code, reason, more));
            && r.Ok?
            && var c := Refer.Classify(ToReferInfo(r.value), referCSeq);
            && (c.Some? <==> code >= 200 || sub.state == "terminated")
            && (c == Some(None) <==> code == 200)
            && (c.Some? && code < 200 ==> c.value == Some(Refer.SubscriptionTerminated(code)))
            && (code >= 200 ==>
                  Transfer.ResponseTo(callId, c.value).sipStatus == if code == 200 then None else Some(code))
  {
    NotifyRoundTrip(proto, id, sub, code, reason, more);
    if code >= 200 {
      var cseq := if id.None? then 0 else id.value;
      Transfer.StatusIsReported(Refer.NotifyInfo(cseq, code, Terminated(sub)), referCSeq, callId);
    }
  }

  /** Without a body there is no status, and without a Subscription-State the subscription goes on. */
  lemma {:induction false} BlankBodyReads(id: Option<nat>, subscription: Option<string>, body: string)
    requires (id.Some? ==> id.value <= MAX_UINT32) && Trim(body) == ""
    ensures HandleNotify(Some(EventText(id)), subscription, body) ==
            Ok(Info(if id.None? then 0 else id.value,
                    Status(0, ""),
                    if subscription.None? then Subscription("", "", 0) else Read(subscription.value)))
    ensures !Terminated(Subscription("", "", 0))
  {
    EventReads(id);
  }

  lemma {:induction false} NoSubscriptionReads(proto: string, id: Option<nat>, code: nat, reason: string, more: string)
    requires (id.Some? ==> id.value <= MAX_UINT32) && IsVersion(proto) && 100 <= code <= 699
    requires Trimmed(reason) && '\n' !in reason
    ensures HandleNotify(Some(EventText(id)), None, BodyText(proto, code, reason, more)) ==
            Ok(Info(if id.None? then 0 else id.value, Status(code, reason), Subscription("", "", 0)))
  {
    EventReads(id);
    BodyReads(proto, code, reason, more);
  }

  /** A NOTIFY that only ends the subscription ends the transfer, with no status to report. */
  lemma {:induction false} BareTerminationFails(id: Option<nat>, sub: Subscription, body: string, referCSeq: nat)
    requires 0 < referCSeq <= MAX_UINT32 && id in {None, Some(referCSeq)} && Trim(body) == ""
    requires sub.state == "terminated" && Clean(sub.state) && Clean(sub.reason)
    ensures var r := HandleNotify(Some(EventText(id)), Some(Print(sub)), body);
            && r.Ok?
            && Refer.Classify(ToReferInfo(r.value), referCSeq) == Some(Some(Refer.SubscriptionTerminated(0)))
  {
    BlankBodyReads(id, Some(Print(sub)), body);
    ReadPrint(sub);
  }

  /** What is refused: no event, an event of another package, or a body that does not read. */
  lemma {:induction false} RefusedNotifies(event: string, subscription: Option<string>, body: string)
    ensures HandleNotify(None, subscription, body) == Err(NoEvent)
    ensures ParseEvent(event).None? ==> HandleNotify(Some(event), subscription, body) == Err(UnknownEvent)
    ensures ParseEvent(event).Some? && Trim(body) != "" && ParseNotifyBody(Trim(body)).Err? ==>
              HandleNotify(Some(event), subscription, body) == Err(ParseNotifyBody(Trim(body)).error)
  {
  }
}
