/** The parser of a process's stat line, against the kernel's printing of that line. */
module ProcStat {
  import opened Options
  import opened ProcWork

  /** What the parser makes of a line; `ticks` is a 64-bit sum. */
  datatype Stat = Stat(comm: string, state: string, ppid: int, ticks: nat, zombie: bool)

  // ------------------------------------------------------------ the line's syntax

  /** The first index of c, or -1. */
  function IndexOf(s: string, c: char): (i: int)
    ensures -1 <= i < |s| && (i >= 0 ==> s[i] == c)
    ensures forall k :: 0 <= k < (if i >= 0 then i else |s|) ==> s[k] != c
  {
    if |s| == 0 then -1
    else if s[0] == c then 0
    else
      var i := IndexOf(s[1..], c);
      assert forall k :: 0 < k < |s| ==> s[k] == s[1..][k - 1];
      if i < 0 then -1 else i + 1
  }

  /** The last index of c, or -1. */
  function LastIndexOf(s: string, c: char): (i: int)
    ensures -1 <= i < |s| && (i >= 0 ==> s[i] == c)
    ensures forall k :: i < k < |s| ==> s[k] != c
  {
    if |s| == 0 then -1
    else if s[|s| - 1] == c then |s| - 1
    else LastIndexOf(s[..|s| - 1], c)
  }

  predicate Space(c: char) { c in {' ', '\t', '\n', 11 as char, 12 as char, '\r'} }

  /** The length of the leading run without white space. */
  function WordLength(s: string): (n: nat)
    ensures n <= |s| && (forall i :: 0 <= i < n ==> !Space(s[i])) && (n < |s| ==> Space(s[n]))
  {
    if |s| == 0 || Space(s[0]) then 0 else 1 + WordLength(s[1..])
  }

  /** The maximal runs of s without white space. */
  function Fields(s: string): seq<string>
    decreases |s|
  {
    if |s| == 0 then []
    else if Space(s[0]) then Fields(s[1..])
    else [s[..WordLength(s)]] + Fields(s[WordLength(s)..])
  }

  predicate Digit(c: char) { '0' <= c <= '9' }

  predicate Digits(s: string) {
    |s| > 0 && forall i :: 0 <= i < |s| ==> Digit(s[i])
  }

  function Value(s: string): nat
    requires forall i :: 0 <= i < |s| ==> Digit(s[i])
  {
    if |s| == 0 then 0
    else
      assert Digit(s[|s| - 1]);
      10 * Value(s[..|s| - 1]) + (s[|s| - 1] as int - '0' as int)
  }

  /** Digits only, and within 64 bits. */
  function ParseUint(s: string): Option<nat> {
    if Digits(s) && Value(s) < TWO_64 then Some(Value(s)) else None
  }

  /** An optional sign and digits, within a signed 64-bit word. */
  function Atoi(s: string): Option<int> {
    var signed := |s| > 0 && (s[0] == '-' || s[0] == '+');
    var digits := if signed then s[1..] else s;
    if !Digits(digits) then None
    else
      var n: int := Value(digits);
      var v := if signed && s[0] == '-' then -n else n;
      if -(TWO_64 / 2) <= v < TWO_64 / 2 then Some(v) else None
  }

  // -------------------------------------------------------------------- the parser

  /** 64-bit addition, which wraps, of two terms that parse. */
  function Plus(sum: Option<nat>, v: Option<nat>): Option<nat> {
    if sum.Some? && v.Some? then Some((sum.value + v.value) % TWO_64) else None
  }

  /** The sum of the fields from lo up to hi. */
  function TickSum(fields: seq<string>, lo: nat, hi: nat): Option<nat>
    requires lo <= hi <= |fields|
    decreases hi - lo
  {
    if lo == hi then Some(0) else Plus(TickSum(fields, lo, hi - 1), ParseUint(fields[hi - 1]))
  }

  const TICKS_FROM := 11
  const TICKS_TO := 15

  /** The fields behind the command name, made out. */
  function Fielded(comm: string, fields: seq<string>): Option<Stat> {
    if |fields| < TICKS_TO then None
    else
      match (Atoi(fields[1]), TickSum(fields, TICKS_FROM, TICKS_TO))
      case (Some(ppid), Some(ticks)) => Some(Stat(comm, fields[0], ppid, ticks, fields[0] == "Z"))
      case _ => None
  }

  /** The line cut at the parentheses of the command name. */
  function Cut(s: string, open: int, end: int): Option<(string, string)>
    requires -1 <= open < |s| && -1 <= end < |s| && (open >= 0 ==> open != end)
  {
    if open < 0 || end < open || end + 2 >= |s| then None else Some((s[open + 1..end], s[end + 2..]))
  }

  function Parsed(s: string): Option<Stat> {
    match Cut(s, IndexOf(s, '('), LastIndexOf(s, ')'))
    case None => None
    case Some((comm, text)) => Fielded(comm, Fields(text))
  }

  method ReadProcStat(line: Option<string>) returns (r: Option<Stat>)
    ensures r == if line.None? then None else Parsed(line.value)
  {
    r := None;
    if line.None? {
      return;
    }
    var s := line.value;
    var open, end := IndexOf(s, '('), LastIndexOf(s, ')');
    if open < 0 || end < open || end + 2 >= |s| {
      return;
    }
    var fields := Fields(s[end + 2..]);
    if |fields| < TICKS_TO {
      return;
    }
    var pp := Atoi(fields[1]);
    if pp.None? {
      return;
    }
    var ticks := Ticks(fields);
    if ticks.None? {
      return;
    }
    r := Some(Stat(s[open + 1..end], fields[0], pp.value, ticks.value, fields[0] == "Z"));
  }

  method Ticks(fields: seq<string>) returns (ticks: Option<nat>)
    requires |fields| >= TICKS_TO
    ensures ticks == TickSum(fields, TICKS_FROM, TICKS_TO)
  {
    var sum := 0;
    for i := TICKS_FROM to TICKS_TO
      invariant TickSum(fields, TICKS_FROM, i) == Some(sum)
    {
      var v := ParseUint(fields[i]);
      if v.None? {
        NoLater(fields, TICKS_FROM, i + 1, TICKS_TO);
        return None;
      }
      sum := (sum + v.value) % TWO_64;
    }
    ticks := Some(sum);
  }

  lemma {:induction false} NoLater(fields: seq<string>, lo: nat, mid: nat, hi: nat)
    requires lo <= mid <= hi <= |fields| && TickSum(fields, lo, mid).None?
    ensures TickSum(fields, lo, hi).None?
    decreases hi
  {
    if mid < hi {
      NoLater(fields, lo, mid, hi - 1);
    }
  }

  // --------------------------------------------------------- the kernel's printing

  function Decimal(n: nat): (s: string)
    ensures Digits(s) && Value(s) == n
  {
    var last := (n % 10 + '0' as int) as char;
    if n < 10 then [last] else Decimal(n / 10) + [last]
  }

  function Signed(n: int): (s: string)
    ensures |s| > 0
  {
    if n < 0 then ['-'] + Decimal(-n) else Decimal(n)
  }

  /** Every field of a line behind the command name: the state letter, then decimal numbers; the
      first of them is the parent, the eleventh to fourteenth are the four tick counts. */
  function Printed(state: char, numbers: seq<int>): seq<string> {
    [[state]] + seq(|numbers|, i requires 0 <= i < |numbers| => Signed(numbers[i]))
  }

  /** Each field behind a space, and the end of the line. */
  function Spaced(fields: seq<string>): (s: string)
    ensures |s| > 0 && Space(s[0])
  {
    if |fields| == 0 then ['\n'] else [' '] + (fields[0] + Spaced(fields[1..]))
  }

  function StatLine(pid: nat, comm: string, state: char, numbers: seq<int>): string {
    (Decimal(pid) + [' ']) + ['('] + comm + [')'] + Spaced(Printed(state, numbers))
  }

  function FourTicks(numbers: seq<int>): int
    requires |numbers| >= TICKS_TO - 1
  {
    numbers[10] + numbers[11] + numbers[12] + numbers[13]
  }

  predicate TicksFit(numbers: seq<int>)
    requires |numbers| >= TICKS_TO - 1
  {
    && 0 <= numbers[10] < TWO_64 && 0 <= numbers[11] < TWO_64
    && 0 <= numbers[12] < TWO_64 && 0 <= numbers[13] < TWO_64
  }

  predicate InRange(numbers: seq<int>)
    requires |numbers| >= TICKS_TO - 1
  {
    -(TWO_64 / 2) <= numbers[0] < TWO_64 / 2 && TicksFit(numbers)
  }

  predicate Word(s: string) {
    |s| > 0 && forall i :: 0 <= i < |s| ==> !Space(s[i])
  }

  predicate Plain(s: string) { Word(s) && ')' !in s }

  lemma SignedIsWord(n: int)
    ensures Plain(Signed(n))
  {
    assert forall i :: 0 <= i < |Signed(n)| ==> Digit(Signed(n)[i]) || Signed(n)[i] == '-';
  }

  lemma SignedReadsBack(n: int)
    ensures Atoi(Signed(n)) == if -(TWO_64 / 2) <= n < TWO_64 / 2 then Some(n) else None
  {
    if n < 0 {
      assert Signed(n)[1..] == Decimal(-n);
    } else {
      assert Digit(Decimal(n)[0]);
    }
  }

  lemma UnsignedReadsBack(n: int)
    ensures ParseUint(Signed(n)) == if 0 <= n < TWO_64 then Some(n) else None
  {
    if n < 0 {
      assert !Digit(Signed(n)[0]);
    }
  }

  lemma {:induction false} WordLengthIs(w: string, rest: string)
    requires forall i :: 0 <= i < |w| ==> !Space(w[i])
    requires |rest| > 0 && Space(rest[0])
    ensures WordLength(w + rest) == |w|
  {
    if |w| == 0 {
      assert w + rest == rest;
    } else {
      assert (w + rest)[1..] == w[1..] + rest;
      WordLengthIs(w[1..], rest);
    }
  }

  lemma WordThenSpace(w: string, rest: string)
    requires Word(w) && |rest| > 0 && Space(rest[0])
    ensures Fields(w + rest) == [w] + Fields(rest)
  {
    var s := w + rest;
    assert s[0] == w[0];
    WordLengthIs(w, rest);
    assert s[..|w|] == w && s[|w|..] == rest;
  }

  /** Splitting gives back the words a line was put together from. */
  lemma {:induction false} FieldsOfSpaced(ws: seq<string>)
    requires forall i :: 0 <= i < |ws| ==> Word(ws[i])
    ensures Fields(Spaced(ws)) == Fields(Spaced(ws)[1..]) == ws
    decreases |ws|
  {
    if |ws| > 0 {
      FieldsOfSpaced(ws[1..]);
      assert Spaced(ws)[1..] == ws[0] + Spaced(ws[1..]);
      WordThenSpace(ws[0], Spaced(ws[1..]));
    }
  }

  lemma {:induction false} NoParens(ws: seq<string>)
    requires forall i :: 0 <= i < |ws| ==> ')' !in ws[i]
    ensures ')' !in Spaced(ws)
    decreases |ws|
  {
    if |ws| > 0 {
      NoParens(ws[1..]);
    }
  }

  /** The name starts behind the first '(' and ends before the last ')', whatever it holds. */
  lemma NameIsFound(s: string, head: string, comm: string, tail: string)
    requires s == head + ['('] + comm + [')'] + tail
    requires '(' !in head && ')' !in tail
    ensures IndexOf(s, '(') == |head| && LastIndexOf(s, ')') == |head| + 1 + |comm|
    ensures s[|head| + 1..|head| + 1 + |comm|] == comm && s[|head| + 2 + |comm|..] == tail
  {
    var open, end := |head|, |head| + 1 + |comm|;
    assert s[open] == '(' && s[end] == ')';
    assert forall k :: 0 <= k < open ==> s[k] == head[k];
    assert forall k :: end < k < |s| ==> s[k] == tail[k - end - 1];
  }

  /** What four additions in a row make of their terms. */
  lemma PlusFour(a: Option<nat>, b: Option<nat>, c: Option<nat>, d: Option<nat>)
    ensures Plus(Plus(Plus(Plus(Some(0), a), b), c), d) ==
            if a.Some? && b.Some? && c.Some? && d.Some?
            then Some((a.value + b.value + c.value + d.value) % TWO_64) else None
  {
  }

  lemma TickSumIs(fields: seq<string>)
    requires |fields| >= TICKS_TO
    ensures var a, b, c, d := ParseUint(fields[11]), ParseUint(fields[12]), ParseUint(fields[13]), ParseUint(fields[14]);
            TickSum(fields, TICKS_FROM, TICKS_TO) ==
            if a.Some? && b.Some? && c.Some? && d.Some?
            then Some((a.value + b.value + c.value + d.value) % TWO_64) else None
  {
    assert TickSum(fields, 11, 13) == Plus(TickSum(fields, 11, 12), ParseUint(fields[12]));
    assert TickSum(fields, 11, 15) == Plus(TickSum(fields, 11, 14), ParseUint(fields[14]));
    PlusFour(ParseUint(fields[11]), ParseUint(fields[12]), ParseUint(fields[13]), ParseUint(fields[14]));
  }

  function Fitting(n: int): Option<nat> { if 0 <= n < TWO_64 then Some(n) else None }

  lemma FourFit(sum: Option<nat>, numbers: seq<int>)
    requires |numbers| >= TICKS_TO - 1
    requires var a, b, c, d := Fitting(numbers[10]), Fitting(numbers[11]), Fitting(numbers[12]), Fitting(numbers[13]);
             sum == if a.Some? && b.Some? && c.Some? && d.Some?
                    then Some((a.value + b.value + c.value + d.value) % TWO_64) else None
    ensures sum == if TicksFit(numbers) then Some(FourTicks(numbers) % TWO_64) else None
  {
  }

  lemma PrintedAt(state: char, numbers: seq<int>, i: nat)
    requires i <= |numbers|
    ensures Printed(state, numbers)[i] == if i == 0 then [state] else Signed(numbers[i - 1])
  {
  }

  lemma FieldOfPrinted(state: char, numbers: seq<int>, i: nat)
    requires i < |numbers|
    ensures ParseUint(Printed(state, numbers)[i + 1]) == Fitting(numbers[i])
  {
    PrintedAt(state, numbers, i + 1);
    UnsignedReadsBack(numbers[i]);
  }

  lemma TicksOfFields(fields: seq<string>, numbers: seq<int>)
    requires |fields| == |numbers| + 1 && |numbers| >= TICKS_TO - 1
    requires forall i :: 10 <= i < 14 ==> ParseUint(fields[i + 1]) == Fitting(numbers[i])
    ensures TickSum(fields, TICKS_FROM, TICKS_TO) == if TicksFit(numbers) then Some(FourTicks(numbers) % TWO_64) else None
  {
    TickSumIs(fields);
    assert ParseUint(fields[10 + 1]) == Fitting(numbers[10]);
    assert ParseUint(fields[11 + 1]) == Fitting(numbers[11]);
    assert ParseUint(fields[12 + 1]) == Fitting(numbers[12]);
    assert ParseUint(fields[13 + 1]) == Fitting(numbers[13]);
    FourFit(TickSum(fields, TICKS_FROM, TICKS_TO), numbers);
  }

  lemma TicksOfPrinted(state: char, numbers: seq<int>)
    requires |numbers| >= TICKS_TO - 1
    ensures TickSum(Printed(state, numbers), TICKS_FROM, TICKS_TO)
            == if TicksFit(numbers) then Some(FourTicks(numbers) % TWO_64) else None
  {
    forall i | 10 <= i < 14 ensures ParseUint(Printed(state, numbers)[i + 1]) == Fitting(numbers[i]) {
      FieldOfPrinted(state, numbers, i);
    }
    TicksOfFields(Printed(state, numbers), numbers);
  }

  lemma CutLine(head: string, comm: string, tail: string)
    requires '(' !in head && ')' !in tail && |tail| > 1
    ensures var s := head + ['('] + comm + [')'] + tail;
            Cut(s, IndexOf(s, '('), LastIndexOf(s, ')')) == Some((comm, tail[1..]))
  {
    var s := head + ['('] + comm + [')'] + tail;
    NameIsFound(s, head, comm, tail);
    assert s[|head| + 2 + |comm|..][1..] == s[|head| + 1 + |comm| + 2..];
  }

  lemma PrintedIsWord(state: char, numbers: seq<int>, i: nat)
    requires !Space(state) && state != ')' && i <= |numbers|
    ensures Plain(Printed(state, numbers)[i])
  {
    PrintedAt(state, numbers, i);
    if i > 0 {
      SignedIsWord(numbers[i - 1]);
    }
  }

  lemma FieldedPrinted(comm: string, state: char, numbers: seq<int>)
    requires |numbers| >= TICKS_TO - 1
    ensures Fielded(comm, Printed(state, numbers)) ==
            if InRange(numbers)
            then Some(Stat(comm, [state], numbers[0], FourTicks(numbers) % TWO_64, state == 'Z'))
            else None
  {
    TicksOfPrinted(state, numbers);
    PrintedAt(state, numbers, 1);
    SignedReadsBack(numbers[0]);
  }

  /** THE PARSER INVERTS THE KERNEL'S PRINTING for every command name, spaces, parentheses and line
      breaks included: a line that reaches the four tick fields is read as exactly its name, state,
      parent and tick sum, provided its numbers fit the 64-bit words they are read into; every other
      line of this form is refused. */
  lemma ReadsWhatIsPrinted(pid: nat, comm: string, state: char, numbers: seq<int>)
    requires !Space(state) && state != ')'
    ensures Parsed(StatLine(pid, comm, state, numbers)) ==
            if |numbers| >= TICKS_TO - 1 && InRange(numbers)
            then Some(Stat(comm, [state], numbers[0], FourTicks(numbers) % TWO_64, state == 'Z'))
            else None
  {
    var fields := Printed(state, numbers);
    forall i | 0 <= i <= |numbers| ensures Plain(Printed(state, numbers)[i]) {
      PrintedIsWord(state, numbers, i);
    }
    FieldsOfSpaced(fields);
    NoParens(fields);
    assert |Spaced(fields)| > 1;
    CutLine(Decimal(pid) + [' '], comm, Spaced(fields));
    if |numbers| >= TICKS_TO - 1 {
      FieldedPrinted(comm, state, numbers);
    }
  }
}
