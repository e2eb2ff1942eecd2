/** String splitting and decimal rendering, as the commands use them. */
module Text {
  import opened Wrappers

  /** strings.Split with a one-character separator: always at least one part. */
  function Split(s: string, c: char): (parts: seq<string>)
    ensures |parts| > 0
  {
    if s == "" then [""]
    else
      var rest := Split(s[1..], c);
      if s[0] == c then [""] + rest else [[s[0]] + rest[0]] + rest[1..]
  }

  function Join(parts: seq<string>, c: char): string
  {
    if parts == [] then "" else if |parts| == 1 then parts[0] else parts[0] + [c] + Join(parts[1..], c)
  }

  lemma {:induction false} SplitHead(head: string, tail: string, c: char)
    requires c !in head
    ensures Split(head, c) == [head]
    ensures Split(head + [c] + tail, c) == [head] + Split(tail, c)
  {
    var s := head + [c] + tail;
    if head == "" {
      assert s[1..] == tail;
    } else {
      SplitHead(head[1..], tail, c);
      assert s[1..] == head[1..] + [c] + tail;
      assert [head[0]] + head[1..] == head;
    }
  }

  /** Splitting undoes joining when no part contains the separator. */
  lemma {:induction false} SplitJoin(parts: seq<string>, c: char)
    requires |parts| > 0 && forall i :: 0 <= i < |parts| ==> c !in parts[i]
    ensures Split(Join(parts, c), c) == parts
  {
    if |parts| == 1 {
      SplitHead(parts[0], "", c);
    } else {
      SplitJoin(parts[1..], c);
      SplitHead(parts[0], Join(parts[1..], c), c);
      assert [parts[0]] + parts[1..] == parts;
    }
  }

  lemma {:induction false} JoinSnoc(parts: seq<string>, last: string, c: char)
    requires |parts| > 0
    ensures Join(parts + [last], c) == Join(parts, c) + [c] + last
  {
    var all := parts + [last];
    if |parts| == 1 {
      assert all[1..] == [last];
    } else {
      assert all[1..] == parts[1..] + [last];
      JoinSnoc(parts[1..], last, c);
      var p, q := parts[0] + [c], Join(parts[1..], c);
      assert p + (q + [c] + last) == (p + q) + [c] + last;
    }
  }

  function Digit(n: nat): char
    requires n < 10
  {
    ('0' as int + n) as char
  }

  /** strconv.Itoa. */
  function Itoa(n: int): string
    decreases n < 0, if n < 0 then -n else n
  {
    if n < 0 then "-" + Itoa(-n)
    else if n < 10 then [Digit(n)]
    else Itoa(n / 10) + [Digit(n % 10)]
  }

  predicate IsDigit(c: char)
  {
    '0' <= c <= '9'
  }

  /** Reads back a decimal rendering. */
  function Atoi(s: string): Option<int>
  {
    if s == "" then None
    else if s[0] == '-' then
      match AtoiDigits(s[1..])
      case None => None
      case Some(n) => Some(-n)
    else AtoiDigits(s)
  }

  function AtoiDigits(s: string): (r: Option<int>)
  {
    if s == "" then None
    else if !IsDigit(s[|s| - 1]) then None
    else
      var d := s[|s| - 1] as int - '0' as int;
      if |s| == 1 then Some(d)
      else
        match AtoiDigits(s[..|s| - 1])
        case None => None
        case Some(n) => Some(10 * n + d)
  }

  lemma {:induction false} ItoaDigits(n: nat)
    ensures |Itoa(n)| > 0 && forall i :: 0 <= i < |Itoa(n)| ==> IsDigit(Itoa(n)[i])
    ensures AtoiDigits(Itoa(n)) == Some(n)
    decreases n
  {
    if n >= 10 {
      ItoaDigits(n / 10);
      var s := Itoa(n);
      assert s[..|s| - 1] == Itoa(n / 10) && s[|s| - 1] == Digit(n % 10);
    }
  }

  ghost predicate ReadsBack(s: string, n: int)
  {
    s != "" && Atoi(s) == Some(n) && forall i :: 0 <= i < |s| ==> s[i] == '-' || IsDigit(s[i])
  }

  /** Every integer reads back from its decimal rendering. */
  lemma ItoaRoundTrip(n: int)
    ensures ReadsBack(Itoa(n), n)
  {
    if n < 0 {
      ItoaDigits(-n);
      ReadNegative(Itoa(-n), -n);
    } else {
      ItoaDigits(n);
      ReadPositive(Itoa(n), n);
    }
  }

  lemma ReadNegative(digits: string, n: int)
    requires digits != "" && AtoiDigits(digits) == Some(n) && forall i :: 0 <= i < |digits| ==> IsDigit(digits[i])
    ensures ReadsBack("-" + digits, -n)
  {
    var s := "-" + digits;
    assert s[0] == '-';
    SignThenDigits(s, digits);
    SignedDigits(s, digits);
  }

  lemma SignThenDigits(s: string, digits: string)
    requires s == "-" + digits
    ensures Atoi(s) == match AtoiDigits(digits) case None => None case Some(n) => Some(-n)
  {
    assert s[1..] == digits;
  }

  lemma SignedDigits(s: string, digits: string)
    requires s == "-" + digits && forall i :: 0 <= i < |digits| ==> IsDigit(digits[i])
    ensures forall i :: 0 <= i < |s| ==> s[i] == '-' || IsDigit(s[i])
  {
    forall i | 0 <= i < |s| ensures s[i] == '-' || IsDigit(s[i]) {
      if i > 0 { assert s[i] == digits[i - 1]; }
    }
  }

  lemma ReadPositive(digits: string, n: nat)
    requires digits != "" && AtoiDigits(digits) == Some(n) && forall i :: 0 <= i < |digits| ==> IsDigit(digits[i])
    ensures ReadsBack(digits, n)
  {
  }
}
