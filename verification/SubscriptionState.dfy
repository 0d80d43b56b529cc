/**
  The Subscription-State header of a NOTIFY, for ASCII header values: how it is read, how
  it is printed, and what survives printing it and reading it back.
*/
module SubscriptionState {
  import opened Prelude
  import opened Text

  datatype Subscription = Subscription(state: string, reason: string, expires: int)

  predicate Terminated(s: Subscription) {
    s.state == "terminated"
  }

  function Print(s: Subscription): string {
    if s.state == "" then "<none>"
    else if s.reason == "" then s.state
    else s.state + ";reason=" + s.reason
  }

  /** What reading a state or a reason leaves: trimmed, lower case, and without the separator. */
  predicate Clean(s: string) {
    Trimmed(s) && Lower(s) == s && ';' !in s
  }

  lemma LowerIsClean(t: string)
    requires Trimmed(t) && ';' !in t
    ensures Clean(Lower(t))
  {
    var r := Lower(t);
    forall i | 0 <= i < |t| ensures r[i] != ';' && Lower(r)[i] == r[i] && (Space(r[i]) <==> Space(t[i])) {
      LowerCharKeeps(t[i]);
    }
    assert Lower(r) == r;
  }

  lemma LowerTrimIsClean(s: string)
    requires ';' !in s
    ensures Clean(Lower(Trim(s)))
  {
    TrimAddsNone(s, ';');
    LowerIsClean(Trim(s));
  }

  const MAX_INT := 0x7FFF_FFFF_FFFF_FFFF

  /**
    The value left in the variable when the conversion's error is ignored: 0 for no number, the nearest bound for one
    too large.
  */
  function Atoi(s: string): int {
    var negative := s != "" && s[0] == '-';
    var digits := if s != "" && (s[0] == '-' || s[0] == '+') then s[1..] else s;
    if !Digits(digits) then 0
    else if negative then -(if Value(digits) > MAX_INT + 1 then MAX_INT + 1 else Value(digits))
    else if Value(digits) > MAX_INT then MAX_INT else Value(digits)
  }

  datatype Param = Param(key: string, value: string)

  function ParamOf(line: string): Option<Param> {
    var l := Trim(line);
    var i := Find(l, '=');
    if i == |l| then None else Some(Param(Lower(Trim(l[..i])), Trim(l[i+1..])))
  }

  function ApplyParam(st: Subscription, line: string): Subscription {
    match ParamOf(line)
    case None => st
    case Some(p) =>
      if p.key == "reason" then st.(reason := Lower(p.value))
      else if p.key == "expires" then st.(expires := Atoi(p.value))
      else st
  }

  function ApplyParams(st: Subscription, lines: seq<string>): Subscription {
    if lines == [] then st else ApplyParam(ApplyParams(st, lines[..|lines|-1]), lines[|lines|-1])
  }

  function Read(header: string): Subscription {
    var list := Split(header);
    ApplyParams(Subscription(Lower(Trim(list[0])), "", 0), list[1..])
  }

  /** One turn of the parser's loop: a field without '=' is skipped. */
  method ReadField(before: Subscription, field: string) returns (st: Subscription)
    ensures st == ApplyParam(before, field)
  {
    st := before;
    var line := Trim(field);
    var i := Find(line, '=');
    if i < |line| {
      var key := Lower(Trim(line[..i]));
      var val := Trim(line[i+1..]);
      if key == "reason" {
        st := st.(reason := Lower(val));
      } else if key == "expires" {
        st := st.(expires := Atoi(val));
      }
    }
  }

  /** The parser's loop: the first field is the state, later fields are parameters. */
  method ParseSubscriptionState(header: string) returns (st: Subscription)
    ensures st == Read(header)
    ensures Clean(st.state) && Clean(st.reason)
  {
    var list := Split(header);
    st := Subscription(Lower(Trim(list[0])), "", 0);
    ghost var first := st;
    assert list[1..1] == [];
    for n := 1 to |list|
      invariant st == ApplyParams(first, list[1..n])
    {
      assert list[1..n+1][..n-1] == list[1..n];
      st := ReadField(st, list[n]);
    }
    assert list[1..|list|] == list[1..];
    ReadIsClean(header);
  }

  lemma ValueIsClean(line: string)
    requires ';' !in line
    ensures ParamOf(line).Some? ==> Clean(Lower(ParamOf(line).value.value))
  {
    var l := Trim(line);
    var i := Find(l, '=');
    TrimAddsNone(line, ';');
    if i < |l| {
      LowerTrimIsClean(l[i+1..]);
    }
  }

  lemma ParamIsClean(st: Subscription, line: string)
    requires ';' !in line
    ensures Clean(st.reason) ==> Clean(ApplyParam(st, line).reason)
    ensures ApplyParam(st, line).state == st.state
  {
    ValueIsClean(line);
  }

  lemma {:induction false} ParamsAreClean(st: Subscription, lines: seq<string>)
    requires forall i | 0 <= i < |lines| :: ';' !in lines[i]
    ensures Clean(st.reason) ==> Clean(ApplyParams(st, lines).reason)
    ensures ApplyParams(st, lines).state == st.state
  {
    if lines != [] {
      ParamsAreClean(st, lines[..|lines|-1]);
      ParamIsClean(ApplyParams(st, lines[..|lines|-1]), lines[|lines|-1]);
    }
  }

  /** Both texts are clean, and the state is the first field whatever it says: an unknown one is kept, not dropped. */
  lemma ReadIsClean(header: string)
    ensures Read(header).state == Lower(Trim(Split(header)[0]))
    ensures Clean(Read(header).state) && Clean(Read(header).reason)
  {
    var list := Split(header);
    SplitParts(header);
    LowerTrimIsClean(list[0]);
    ParamsAreClean(Subscription(Lower(Trim(list[0])), "", 0), list[1..]);
  }

  /** A printed reason is read back as itself. */
  lemma ReasonLine(st: Subscription, reason: string)
    requires Clean(reason) && reason != ""
    ensures ApplyParam(st, "reason=" + reason) == st.(reason := reason)
  {
    var line := "reason=" + reason;
    assert line[|line|-1] == reason[|reason|-1];
    assert Trim(line) == line;
    assert line == "reason" + ['='] + reason;
    FindFirst("reason", '=', reason);
    assert line[..6] == "reason" && line[7..] == reason;
    assert Lower("reason") == "reason";
  }

  /** Reading what was printed restores state and reason, for every clean subscription that has a state. */
  lemma ReadPrint(s: Subscription)
    requires Clean(s.state) && Clean(s.reason) && s.state != ""
    ensures Read(Print(s)) == s.(expires := 0)
  {
    var first := Subscription(s.state, "", 0);
    if s.reason == "" {
      SplitJoin([s.state]);
      assert Split(Print(s))[1..] == [];
    } else {
      var line := "reason=" + s.reason;
      var parts := [s.state, line];
      assert parts[1..] == [line];
      assert Print(s) == Join(parts);
      SplitJoin(parts);
      ReasonLine(first, s.reason);
      assert [line][..0] == [];
      assert ApplyParams(first, [line]) == ApplyParam(first, line);
    }
  }

  /**
    Reading is a normal form exactly for headers with a state: printing and reading back keeps state and reason, and
    without a state it does not, because the placeholder reads as a state. Either way termination is kept.
  */
  lemma RoundTripExactlyWithState(header: string)
    ensures var s := Read(header);
            var again := Read(Print(s));
            && (again.state == s.state && again.reason == s.reason <==> s.state != "")
            && (Terminated(again) <==> Terminated(s))
  {
    var s := Read(header);
    ReadIsClean(header);
    if s.state != "" {
      ReadPrint(s);
    } else {
      NoneReads();
    }
  }

  lemma NoneReads()
    ensures Read("<none>").state == "<none>"
  {
    SplitJoin(["<none>"]);
    assert Lower("<none>") == "<none>";
    ParamsAreClean(Subscription("<none>", "", 0), []);
  }

  /** The reason is that of the last field whose key is `reason`, whatever its case and spacing. */
  lemma {:induction false} LastReasonWins(st: Subscription, lines: seq<string>, k: nat)
    requires k < |lines| && IsReason(lines[k])
    requires forall j | k < j < |lines| :: !IsReason(lines[j])
    ensures ApplyParams(st, lines).reason == Lower(ParamOf(lines[k]).value.value)
  {
    if k < |lines| - 1 {
      LastReasonWins(st, lines[..|lines|-1], k);
    }
  }

  predicate IsReason(line: string) {
    ParamOf(line).Some? && ParamOf(line).value.key == "reason"
  }

  // ---- expires ----

  /** A decimal number reads as itself, up to the largest integer; a sign is understood; anything else reads as 0. */
  lemma {:induction false} AtoiReads(n: nat)
    ensures Atoi(Decimal(n)) == if n > MAX_INT then MAX_INT else n
    ensures Atoi(['+'] + Decimal(n)) == if n > MAX_INT then MAX_INT else n
    ensures Atoi(['-'] + Decimal(n)) == -(if n > MAX_INT + 1 then MAX_INT + 1 else n)
  {
    var d := Decimal(n);
    DecimalReads(n);
    assert '0' <= d[0] <= '9';
    assert (['+'] + d)[1..] == d && (['-'] + d)[1..] == d;
  }

  lemma {:induction false} NoNumberReadsAsZero(s: string)
    requires !Digits(s) && (s == "" || (s[0] != '-' && s[0] != '+'))
    ensures Atoi(s) == 0
  {
  }

  /** The expiry in seconds is read from its field and changes nothing else. */
  lemma {:induction false} ExpiresLine(st: Subscription, n: nat)
    requires n <= MAX_INT
    ensures ApplyParam(st, "expires" + ['='] + Decimal(n)) == st.(expires := n)
  {
    var d := Decimal(n);
    DecimalIsTrimmed(n);
    ExpiresIsAKey();
    ParamLine("expires", d);
    ApplyExpires(st, "expires" + ['='] + d, d);
    AtoiReads(n);
  }

  lemma {:induction false} DecimalIsTrimmed(n: nat)
    ensures Decimal(n) != "" && Trimmed(Decimal(n))
  {
    DecimalReads(n);
  }

  lemma {:induction false} ApplyExpires(st: Subscription, line: string, value: string)
    requires ParamOf(line) == Some(Param("expires", value))
    ensures ApplyParam(st, line) == st.(expires := Atoi(value))
  {
  }

  lemma {:induction false} ExpiresIsAKey()
    ensures Trimmed("expires") && Lower("expires") == "expires" && '=' !in "expires"
  {
  }

  lemma {:induction false} TrimFixed(s: string)
    requires Trimmed(s)
    ensures Trim(s) == s
  {
  }

  lemma {:induction false} EndsAreTrimmed(a: string, m: string, b: string)
    requires a != "" && b != "" && Trimmed(a) && Trimmed(b)
    ensures Trimmed(a + m + b)
  {
    var s := a + m + b;
    assert s[0] == a[0] && s[|s|-1] == b[|b|-1];
  }

  /** A field `key=value` without further blanks reads as that key and value. */
  lemma {:induction false} ParamLine(key: string, value: string)
    requires key != "" && Trimmed(key) && Lower(key) == key && '=' !in key && value != "" && Trimmed(value)
    ensures ParamOf(key + ['='] + value) == Some(Param(key, value))
  {
    var line := key + ['='] + value;
    EndsAreTrimmed(key, ['='], value);
    TrimFixed(line);
    FindFirst(key, '=', value);
    CutLine(key, value);
    TrimFixed(key);
    TrimFixed(value);
  }

  lemma CutLine(key: string, value: string)
    ensures var line := key + ['='] + value; line[..|key|] == key && line[|key|+1..] == value
  {
  }

  predicate IsExpires(line: string) {
    ParamOf(line).Some? && ParamOf(line).value.key == "expires"
  }

  lemma {:induction false} LastExpiresWins(st: Subscription, lines: seq<string>, k: nat)
    requires k < |lines| && IsExpires(lines[k])
    requires forall j | k < j < |lines| :: !IsExpires(lines[j])
    ensures ApplyParams(st, lines).expires == Atoi(ParamOf(lines[k]).value.value)
  {
    if k < |lines| - 1 {
      LastExpiresWins(st, lines[..|lines|-1], k);
    }
  }
}
