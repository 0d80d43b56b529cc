/** The ASCII string operations that the header parsers share. */
module Text {
  predicate Space(c: char) {
    c == ' ' || '\t' <= c <= '\r'
  }

  predicate Trimmed(s: string) {
    s == "" || (!Space(s[0]) && !Space(s[|s|-1]))
  }

  function Trim(s: string): (r: string)
    ensures Trimmed(r)
    decreases |s|
  {
    if s == "" then ""
    else if Space(s[0]) then Trim(s[1..])
    else if Space(s[|s|-1]) then Trim(s[..|s|-1])
    else s
  }

  lemma {:induction false} TrimAddsNone(s: string, c: char)
    requires c !in s
    ensures c !in Trim(s)
    decreases |s|
  {
    if s != "" {
      if Space(s[0]) {
        TrimAddsNone(s[1..], c);
      } else if Space(s[|s|-1]) {
        TrimAddsNone(s[..|s|-1], c);
      }
    }
  }

  function LowerChar(c: char): char {
    if 'A' <= c <= 'Z' then c - 'A' + 'a' else c
  }

  function Lower(s: string): (r: string)
    ensures |r| == |s| && forall i | 0 <= i < |s| :: r[i] == LowerChar(s[i])
  {
    if s == "" then "" else Lower(s[..|s|-1]) + [LowerChar(s[|s|-1])]
  }

  lemma LowerCharKeeps(c: char)
    ensures LowerChar(LowerChar(c)) == LowerChar(c)
    ensures Space(LowerChar(c)) <==> Space(c)
    ensures LowerChar(c) == ';' <==> c == ';'
  {
  }

  /** The position of the first occurrence, or the length if there is none. */
  function Find(s: string, c: char): (i: nat)
    ensures i <= |s|
  {
    if s == "" || s[0] == c then 0 else 1 + Find(s[1..], c)
  }

  lemma {:induction false} FindSplits(s: string, c: char)
    ensures c !in s[..Find(s, c)]
    ensures Find(s, c) < |s| ==> s[Find(s, c)] == c
  {
    if s != "" && s[0] != c {
      FindSplits(s[1..], c);
      assert s[..Find(s, c)] == [s[0]] + s[1..][..Find(s[1..], c)];
    }
  }

  lemma {:induction false} FindNone(s: string, c: char)
    requires c !in s
    ensures Find(s, c) == |s|
  {
    if s != "" {
      FindNone(s[1..], c);
    }
  }

  function Split(s: string): (r: seq<string>)
    ensures |r| >= 1
    decreases |s|
  {
    var i := Find(s, ';');
    if i == |s| then [s] else [s[..i]] + Split(s[i+1..])
  }

  lemma {:induction false} SplitParts(s: string)
    ensures forall k | 0 <= k < |Split(s)| :: ';' !in Split(s)[k]
    decreases |s|
  {
    var i := Find(s, ';');
    FindSplits(s, ';');
    if i < |s| {
      SplitParts(s[i+1..]);
    } else {
      assert s[..i] == s;
    }
  }

  function Join(parts: seq<string>): string
    requires |parts| >= 1
  {
    if |parts| == 1 then parts[0] else parts[0] + ";" + Join(parts[1..])
  }

  lemma {:induction false} FindFirst(a: string, c: char, b: string)
    requires c !in a
    ensures Find(a + [c] + b, c) == |a|
  {
    var s := a + [c] + b;
    if a != "" {
      FindFirst(a[1..], c, b);
      assert s[1..] == a[1..] + [c] + b;
    }
  }

  /** The first separator ends the first part. */
  lemma {:induction false} SplitFirst(a: string, b: string)
    requires ';' !in a
    ensures Split(a + [';'] + b) == [a] + Split(b)
  {
    var s := a + [';'] + b;
    FindFirst(a, ';', b);
    assert s[..|a|] == a && s[|a|+1..] == b;
  }

  /** Splitting takes apart exactly what joining puts together. */
  lemma {:induction false} SplitJoin(parts: seq<string>)
    requires |parts| >= 1 && forall i | 0 <= i < |parts| :: ';' !in parts[i]
    ensures Split(Join(parts)) == parts
  {
    if |parts| == 1 {
      FindNone(parts[0], ';');
      assert parts == [parts[0]];
    } else {
      SplitJoin(parts[1..]);
      SplitFirst(parts[0], Join(parts[1..]));
      assert parts == [parts[0]] + parts[1..];
    }
  }

  predicate Digits(s: string) {
    s != "" && forall i | 0 <= i < |s| :: '0' <= s[i] <= '9'
  }

  function Value(s: string): nat
    requires forall i | 0 <= i < |s| :: '0' <= s[i] <= '9'
  {
    if s == "" then 0 else Value(s[..|s|-1]) * 10 + (s[|s|-1] - '0') as nat
  }

  function Decimal(n: nat): string {
    var last := ['0', '1', '2', '3', '4', '5', '6', '7', '8', '9'][n % 10];
    if n < 10 then [last] else Decimal(n / 10) + [last]
  }

  lemma {:induction false} DecimalReads(n: nat)
    ensures Digits(Decimal(n)) && Value(Decimal(n)) == n
  {
    if n >= 10 {
      DecimalReads(n / 10);
      assert Decimal(n)[..|Decimal(n)|-1] == Decimal(n / 10);
    }
  }
}
