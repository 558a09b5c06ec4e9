/**
 Eval origins (core/error.rs): taking the location out of a string such as
 `eval at foo (eval at bar (file:///a.ts:1:2))` and printing it back with another one.
 */
module EvalOrigin {
  import opened Options

  const EVAL_AT := "eval at "
  const I64_MAX := 0x7fff_ffff_ffff_ffff

  // ---------------------------------------------------------------- searching

  predicate At(s: string, pat: string, i: int) {
    0 <= i <= |s| - |pat| && s[i..i + |pat|] == pat
  }

  ghost predicate Lacks(s: string, pat: string) {
    forall i :: !At(s, pat, i)
  }

  /** `str::find`. */
  function Find(s: string, pat: string): Option<nat> {
    FindFrom(s, pat, 0)
  }

  function FindFrom(s: string, pat: string, i: nat): (r: Option<nat>)
    ensures r.Some? ==> At(s, pat, r.value) && r.value >= i && forall j :: i <= j < r.value ==> !At(s, pat, j)
    ensures r.None? ==> forall j :: i <= j ==> !At(s, pat, j)
    decreases |s| - i
  {
    if i > |s| - |pat| then None
    else if At(s, pat, i) then Some(i)
    else FindFrom(s, pat, i + 1)
  }

  /** `str::rfind`. */
  function RFind(s: string, pat: string): (r: Option<nat>)
    ensures r.Some? ==> At(s, pat, r.value) && forall j :: j > r.value ==> !At(s, pat, j)
    ensures r.None? ==> Lacks(s, pat)
  {
    RFindBefore(s, pat, |s| + 1)
  }

  function RFindBefore(s: string, pat: string, i: nat): (r: Option<nat>)
    requires forall j :: j >= i ==> !At(s, pat, j)
    ensures r.Some? ==> At(s, pat, r.value) && forall j :: j > r.value ==> !At(s, pat, j)
    ensures r.None? ==> Lacks(s, pat)
  {
    if i == 0 then None
    else if At(s, pat, i - 1) then Some(i - 1)
    else RFindBefore(s, pat, i - 1)
  }

  lemma AtIndex(s: string, pat: string, i: int)
    requires 0 <= i <= |s| - |pat|
    ensures At(s, pat, i) <==> forall k :: i <= k < i + |pat| ==> s[k] == pat[k - i]
  {
    if At(s, pat, i) {
      forall k | i <= k < i + |pat| ensures s[k] == pat[k - i] {
        assert s[i..i + |pat|][k - i] == s[k];
      }
    }
  }

  /** A character that is not in the pattern separates its occurrences. */
  lemma AtJoin(x: string, c: char, y: string, pat: string, i: int)
    requires c !in pat && pat != [] && At(x + [c] + y, pat, i)
    ensures At(x, pat, i) || At(y, pat, i - |x| - 1)
  {
    var s := x + [c] + y;
    AtIndex(s, pat, i);
    assert s[|x|] == c;
    if i + |pat| <= |x| {
      assert x[i..i + |pat|] == s[i..i + |pat|];
    } else if i > |x| {
      assert y[i - |x| - 1..i - |x| - 1 + |pat|] == s[i..i + |pat|];
    }
  }

  lemma AtLeft(x: string, y: string, pat: string, i: int)
    ensures At(x, pat, i) ==> At(x + y, pat, i)
    ensures i + |pat| <= |x| && At(x + y, pat, i) ==> At(x, pat, i)
  {
    if 0 <= i && i + |pat| <= |x| {
      assert (x + y)[i..i + |pat|] == x[i..i + |pat|];
    }
  }

  lemma AtRight(x: string, y: string, pat: string, i: int)
    ensures At(y, pat, i) ==> At(x + y, pat, |x| + i)
  {
    if At(y, pat, i) {
      assert (x + y)[|x| + i..|x| + i + |pat|] == y[i..i + |pat|];
    }
  }

  lemma LacksJoin(x: string, c: char, y: string, pat: string)
    requires c !in pat && pat != [] && Lacks(x, pat) && Lacks(y, pat)
    ensures Lacks(x + [c] + y, pat)
  {
    forall i | At(x + [c] + y, pat, i) ensures false {
      AtJoin(x, c, y, pat, i);
    }
  }

  lemma LastJoin(x: string, c: char, y: string, pat: string)
    requires c !in pat && pat != [] && RFind(x, pat).Some? && Lacks(y, pat)
    ensures RFind(x + [c] + y, pat) == RFind(x, pat)
  {
    var s, i := x + [c] + y, RFind(x, pat).value;
    AtLeft(x, [c] + y, pat, i);
    assert s == x + ([c] + y);
    forall j | j > i && At(s, pat, j) ensures false {
      AtJoin(x, c, y, pat, j);
    }
  }

  lemma LacksAbsent(s: string, pat: string, c: char)
    requires c in pat && c !in s
    ensures Lacks(s, pat)
  {
    var k :| 0 <= k < |pat| && pat[k] == c;
    forall i | 0 <= i <= |s| - |pat| ensures !At(s, pat, i) {
      AtIndex(s, pat, i);
      assert s[i + k] in s;
    }
  }

  /** The last occurrence of a character, given what stands around it. */
  lemma RFindChar(x: string, c: char, y: string)
    requires c !in y
    ensures RFind(x + [c] + y, [c]) == Some(|x|)
  {
    var s := x + [c] + y;
    AtIndex(s, [c], |x|);
    forall j | |x| < j < |s| ensures !At(s, [c], j) {
      AtIndex(s, [c], j);
      assert s[j] == y[j - |x| - 1];
    }
  }

  lemma FindChar(x: string, c: char, y: string)
    requires c !in x
    ensures Find(x + [c] + y, [c]) == Some(|x|)
  {
    var s := x + [c] + y;
    AtIndex(s, [c], |x|);
    forall j | 0 <= j < |x| ensures !At(s, [c], j) {
      AtIndex(s, [c], j);
      assert s[j] == x[j];
    }
  }

  // ---------------------------------------------------------------- numerals

  predicate IsDigit(c: char) {
    '0' <= c <= '9'
  }

  predicate AllDigits(s: string) {
    forall c :: c in s ==> IsDigit(c)
  }

  function DigitsValue(s: string): nat
    requires AllDigits(s)
  {
    if s == "" then 0
    else
      assert s[|s| - 1] in s;
      10 * DigitsValue(s[..|s| - 1]) + (s[|s| - 1] as int - '0' as int)
  }

  /** `str::parse::<i64>`: an optional sign, digits, and the range of the type. */
  function ParseI64(s: string): Option<int> {
    if s == "" then None
    else
      var negative := s[0] == '-';
      var body := if s[0] in "+-" then s[1..] else s;
      if body == "" || !AllDigits(body) then None
      else
        var v: int := if negative then 0 - DigitsValue(body) else DigitsValue(body);
        if -I64_MAX - 1 <= v <= I64_MAX then Some(v) else None
  }

  function Digits(n: nat): (s: string)
    ensures s != "" && AllDigits(s) && DigitsValue(s) == n
  {
    if n < 10 then
      var s := ['0' + n as char];
      assert s[..0] == "" && DigitsValue(s) == n;
      s
    else
      var pre, last := Digits(n / 10), '0' + (n % 10) as char;
      OneDigitMore(pre, last);
      pre + [last]
  }

  lemma OneDigitMore(s: string, last: char)
    requires AllDigits(s) && IsDigit(last)
    ensures AllDigits(s + [last]) && DigitsValue(s + [last]) == 10 * DigitsValue(s) + (last as int - '0' as int)
  {
    assert (s + [last])[..|s|] == s;
  }

  /** How `format!` prints an `i64`. */
  function FormatI64(n: int): (s: string) {
    if n < 0 then "-" + Digits(-n) else Digits(n)
  }

  predicate IsI64(n: int) {
    -I64_MAX - 1 <= n <= I64_MAX
  }

  /** Printed numbers parse back, and consist of digits and a sign only. */
  lemma FormatParses(n: int)
    requires IsI64(n)
    ensures ParseI64(FormatI64(n)) == Some(n)
    ensures forall c :: c in FormatI64(n) ==> IsDigit(c) || c == '-'
  {
    var s := FormatI64(n);
    if n < 0 {
      assert s[0] == '-' && s[1..] == Digits(-n);
    } else {
      assert s[0] in Digits(n);
    }
  }

  function Pow10(k: nat): nat {
    if k == 0 then 1 else 10 * Pow10(k - 1)
  }

  /** Numerals are positional, with the most significant digit first. */
  lemma {:induction false} Positional(a: string, b: string)
    requires AllDigits(a) && AllDigits(b)
    ensures AllDigits(a + b) && DigitsValue(a + b) == DigitsValue(a) * Pow10(|b|) + DigitsValue(b)
  {
    if b == "" {
      assert a + b == a;
    } else {
      var pre, last := b[..|b| - 1], b[|b| - 1];
      Positional(a, pre);
      assert (a + b)[..|a + b| - 1] == a + pre && (a + b)[|a + b| - 1] == last && last in b;
      TimesTen(DigitsValue(a), Pow10(|pre|));
    }
  }

  lemma TimesTen(a: nat, p: nat)
    ensures 10 * (a * p) == a * (10 * p)
  {
  }

  lemma OneDigit(c: char)
    requires IsDigit(c)
    ensures AllDigits([c]) && DigitsValue([c]) == c as int - '0' as int
  {
    assert [c][..0] == "";
  }

  predicate InI64(n: int, r: Option<int>) {
    r == if IsI64(n) then Some(n) else None
  }

  /** What `parse` accepts: digits, with an optional sign, whose value is in range; and nothing else. */
  lemma ParseCases(s: string)
    ensures s != "" && AllDigits(s) ==> InI64(DigitsValue(s), ParseI64(s))
    ensures s != "" && AllDigits(s) ==> InI64(DigitsValue(s), ParseI64("+" + s))
    ensures s != "" && AllDigits(s) ==> InI64(0 - DigitsValue(s), ParseI64("-" + s))
    ensures ParseI64(s).Some? ==> AllDigits(s) || (s[0] in "+-" && AllDigits(s[1..]) && s[1..] != "")
  {
    if s != "" && AllDigits(s) {
      assert s[0] in s && ("+" + s)[1..] == s && ("-" + s)[1..] == s;
    }
  }

  /** A numeral as it is printed: no plus sign, no leading zero, no negative zero. */
  predicate Canonical(s: string) {
    s == "0" || (s != "" && '1' <= s[0] <= '9') || (|s| > 1 && s[0] == '-' && '1' <= s[1] <= '9')
  }

  /** A numeral is printed back as it was exactly if it is canonical. */
  lemma PrintedCanonical(s: string)
    requires ParseI64(s).Some?
    ensures FormatI64(ParseI64(s).value) == s <==> Canonical(s)
  {
    hide ParseI64, Canonical, FormatI64;
    FormatCanonical(ParseI64(s).value);
    if Canonical(s) {
      CanonicalPrinted(s);
    }
  }

  lemma FormatCanonical(n: int)
    ensures Canonical(FormatI64(n))
  {
    hide DigitsValue;
    DigitsLead(if n < 0 then -n else n);
  }

  lemma CanonicalPrinted(s: string)
    requires ParseI64(s).Some? && Canonical(s)
    ensures FormatI64(ParseI64(s).value) == s
  {
    hide Digits, DigitsValue;
    if s[0] == '-' {
      LeadPositive(s[1..]);
      DigitsUnique(s[1..]);
      assert s == "-" + s[1..];
    } else {
      DigitsUnique(s);
    }
  }

  lemma {:induction false} LeadPositive(s: string)
    requires AllDigits(s) && s != "" && s[0] != '0'
    ensures DigitsValue(s) > 0
  {
    if |s| == 1 {
      assert s[0] in s;
    } else {
      assert s[|s| - 1] in s;
      LeadPositive(s[..|s| - 1]);
    }
  }

  /** Printed digits have no leading zero. */
  lemma {:induction false} DigitsLead(n: nat)
    ensures n == 0 ==> Digits(n) == "0"
    ensures n > 0 ==> Digits(n)[0] != '0'
    ensures Digits(n)[0] in Digits(n)
  {
    if n >= 10 {
      DigitsLead(n / 10);
    }
  }

  /** Digits without a leading zero are the printed form of their value. */
  lemma {:induction false} DigitsUnique(s: string)
    requires AllDigits(s) && s != "" && (s[0] != '0' || |s| == 1)
    ensures Digits(DigitsValue(s)) == s
  {
    var pre, last := s[..|s| - 1], s[|s| - 1];
    assert last in s && s == pre + [last];
    if pre == "" {
      OneDigit(last);
    } else {
      DigitsUnique(pre);
      LeadPositive(pre);
      DigitsMore(DigitsValue(pre), last);
    }
  }

  lemma DigitsMore(n: nat, last: char)
    requires n > 0 && IsDigit(last)
    ensures Digits(10 * n + (last as int - '0' as int)) == Digits(n) + [last]
  {
    hide DigitsValue;
    var d := last as int - '0' as int;
    assert (10 * n + d) / 10 == n && (10 * n + d) % 10 == d;
    assert '0' + d as char == last;
  }

  lemma ParsedText(s: string)
    requires ParseI64(s).Some?
    ensures forall c :: c in s ==> IsDigit(c) || c in "+-"
    ensures IsI64(ParseI64(s).value)
  {
    if s[0] in "+-" {
      assert s == [s[0]] + s[1..];
    }
  }

  // ---------------------------------------------------------------- parsing and printing

  datatype Location = Location(file: string, line: int, column: int)

  datatype Origin = Origin(before: string, location: Location, after: string)

  /** The last colon of the innermost part is the last colon of the string. */
  lemma LastColon(s: string, start: nat)
    requires start <= |s| && RFind(s[start..], ":").Some?
    ensures RFind(s, ":") == Some(start + RFind(s[start..], ":").value)
  {
    var rest, i := s[start..], RFind(s[start..], ":").value;
    assert s == s[..start] + rest;
    AtRight(s[..start], rest, ":", i);
    forall j | start + i < j < |s| ensures !At(s, ":", j) {
      AtIndex(s, ":", j);
      AtIndex(rest, ":", j - start);
    }
  }

  /** Where the innermost part starts: behind the parenthesis after the last function name. */
  function Innermost(s: string): (r: Option<nat>)
    ensures r.Some? ==> 0 < r.value < |s|
  {
    var evalAt := RFind(s, EVAL_AT);
    if evalAt.None? then None else
    var nameStart := evalAt.value + |EVAL_AT|;
    var paren := Find(s[nameStart..], "(");
    if paren.None? || nameStart + paren.value + 1 >= |s| then None
    else Some(nameStart + paren.value + 1)
  }

  /** `rsplitn(3, ':')` and the numbers: the location, and where the column number ends, counted from
      the last colon. */
  function Locate(rest: string): (r: Option<(Location, nat)>)
    ensures r.Some? ==> RFind(rest, ":").Some? && RFind(rest, ":").value + 1 + r.value.1 <= |rest|
  {
    var colon1 := RFind(rest, ":");
    var columnWithRest := if colon1.Some? then rest[colon1.value + 1..] else rest;
    var columnEnd := Find(columnWithRest, ")");
    if columnEnd.None? then None else
    var column := ParseI64(columnWithRest[..columnEnd.value]);
    if column.None? || colon1.None? then None else
    var head := rest[..colon1.value];
    var colon2 := RFind(head, ":");
    var line := ParseI64(if colon2.Some? then head[colon2.value + 1..] else head);
    if line.None? || colon2.None? then None
    else Some((Location(head[..colon2.value], line.value, column.value), columnEnd.value))
  }

  /** `parse_eval_origin`. */
  function Parse(s: string): Option<Origin> {
    var start := Innermost(s);
    if start.None? then None else
    var found := Locate(s[start.value..]);
    if found.None? then None else
    var lastColon := RFind(s, ":");
    if lastColon.None? then None else
    LastColon(s, start.value);
    var end := lastColon.value + 1 + found.value.1;
    Some(Origin(s[..start.value], found.value.0, s[end..]))
  }

  /** The string built by `format_eval_origin`. */
  function Print(o: Origin): string {
    o.before + Middle(o.location.file, FormatI64(o.location.line), FormatI64(o.location.column)) + o.after
  }

  function Middle(file: string, line: string, column: string): string {
    file + ":" + line + ":" + column
  }

  /** `format_eval_origin`, with `format_file_name` as a parameter. */
  function FormatOrigin(s: string, formatFile: string -> string): string {
    match Parse(s)
    case None => s
    case Some(o) => Print(o.(location := o.location.(file := formatFile(o.location.file))))
  }

  // ---------------------------------------------------------------- what a parse establishes

  /** What surrounds the location: the last "eval at " with a function name that runs up to the first
      parenthesis, and behind it a closing parenthesis followed by neither a colon nor another
      "eval at ". */
  ghost predicate Framed(before: string, after: string) {
    FramedBefore(before) && after != "" && after[0] == ')' && ':' !in after && Lacks(after, EVAL_AT)
  }

  ghost predicate FramedBefore(before: string) {
    before != "" && before[|before| - 1] == '(' &&
    var x := before[..|before| - 1];
    RFind(x, EVAL_AT).Some? && '(' !in x[RFind(x, EVAL_AT).value + |EVAL_AT|..]
  }

  /** Cutting a string at the first or last occurrence of a character. */
  lemma CutFirst(s: string, c: char)
    requires Find(s, [c]).Some?
    ensures var i := Find(s, [c]).value; i < |s| && s == s[..i] + [c] + s[i + 1..] && c !in s[..i]
  {
    var i := Find(s, [c]).value;
    AtIndex(s, [c], i);
    forall j | 0 <= j < i ensures s[j] != c {
      AtIndex(s, [c], j);
    }
  }

  lemma CutLast(s: string, c: char)
    requires RFind(s, [c]).Some?
    ensures var i := RFind(s, [c]).value; i < |s| && s == s[..i] + [c] + s[i + 1..] && c !in s[i + 1..]
  {
    var i := RFind(s, [c]).value;
    AtIndex(s, [c], i);
    forall j | i < j < |s| ensures s[j] != c {
      AtIndex(s, [c], j);
    }
  }

  /** A suffix that starts after the last occurrence of a pattern lacks it. */
  lemma LacksBehind(x: string, y: string, pat: string)
    requires pat != [] && RFind(x + y, pat).Some? && RFind(x + y, pat).value < |x|
    ensures Lacks(y, pat)
  {
    forall i | 0 <= i <= |y| - |pat| ensures !At(y, pat, i) {
      AtRight(x, y, pat, i);
    }
  }

  /** A prefix that holds the last occurrence of a pattern has it as its last one. */
  lemma LastInPrefix(x: string, y: string, pat: string)
    requires RFind(x + y, pat).Some? && RFind(x + y, pat).value + |pat| <= |x|
    ensures RFind(x, pat) == RFind(x + y, pat)
  {
    var i := RFind(x + y, pat).value;
    AtLeft(x, y, pat, i);
    forall j | j > i ensures !At(x, pat, j) {
      AtLeft(x, y, pat, j);
    }
  }

  lemma FrameOfParse(s: string)
    requires Innermost(s).Some?
    ensures FramedBefore(s[..Innermost(s).value])
    ensures RFind(s, EVAL_AT).Some? && RFind(s, EVAL_AT).value < Innermost(s).value
  {
    hide Find, At, Lacks;
    var n := RFind(s, EVAL_AT).value + |EVAL_AT|;
    var paren := Find(s[n..], "(").value;
    CutFirst(s[n..], '(');
    var before := s[..n + paren + 1];
    var x := before[..n + paren];
    assert s == x + s[n + paren..];
    LastInPrefix(x, s[n + paren..], EVAL_AT);
    assert x[n..] == s[n..][..paren];
  }

  lemma LocateLossless(rest: string) returns (lineText: string, columnText: string, after: string)
    requires Locate(rest).Some?
    ensures var (at, end) := Locate(rest).value;
      && after == rest[RFind(rest, ":").value + 1 + end..]
      && rest == Middle(at.file, lineText, columnText) + after
      && ParseI64(lineText) == Some(at.line) && ParseI64(columnText) == Some(at.column)
      && after != "" && after[0] == ')' && ':' !in after
  {
    hide Find, At, Lacks, ParseI64, Middle;
    var c1 := RFind(rest, ":").value;
    var tail, head := rest[c1 + 1..], rest[..c1];
    var c2, e := RFind(head, ":").value, Find(tail, ")").value;
    SplitRest(rest, c1, c2, e);
    columnText, lineText, after := tail[..e], head[c2 + 1..], tail[e..];
  }

  /** A successful parse loses nothing: the string is the three parts with the texts of the two numbers
      in between. */
  lemma Lossless(s: string) returns (lineText: string, columnText: string)
    requires Parse(s).Some?
    ensures var o := Parse(s).value;
      && s == o.before + Middle(o.location.file, lineText, columnText) + o.after
      && ParseI64(lineText) == Some(o.location.line) && ParseI64(columnText) == Some(o.location.column)
      && Framed(o.before, o.after) && Lacks(o.location.file, EVAL_AT)
  {
    hide Find, At, Lacks, ParseI64, Innermost, Locate, FramedBefore, Middle;
    var start := Innermost(s).value;
    var rest := s[start..];
    var at := Locate(rest).value.0;
    var after;
    lineText, columnText, after := LocateLossless(rest);
    FrameOfParse(s);
    LastColon(s, start);
    assert s == s[..start] + rest;
    LacksBehind(s[..start], rest, EVAL_AT);
    LacksParts(at.file, lineText, columnText, after);
    Associate(s[..start], Middle(at.file, lineText, columnText), after);
  }

  lemma Associate(a: string, b: string, c: string)
    ensures a + (b + c) == a + b + c
  {
  }

  lemma SplitRest(rest: string, c1: nat, c2: nat, e: nat)
    requires RFind(rest, ":") == Some(c1) && c1 < |rest|
    requires RFind(rest[..c1], ":") == Some(c2) && Find(rest[c1 + 1..], ")") == Some(e)
    ensures var head, tail := rest[..c1], rest[c1 + 1..];
      && c2 < |head| && e < |tail|
      && rest == Middle(head[..c2], head[c2 + 1..], tail[..e]) + tail[e..]
      && tail[e] == ')' && ':' !in tail[e..]
  {
    hide Find, RFind, At, Lacks;
    var head, tail := rest[..c1], rest[c1 + 1..];
    CutLast(rest, ':');
    CutFirst(tail, ')');
    CutLast(head, ':');
    assert tail == tail[..e] + tail[e..];
    Associate(head + [':'], tail[..e], tail[e..]);
  }

  lemma LacksParts(file: string, line: string, column: string, after: string)
    requires Lacks(Middle(file, line, column) + after, EVAL_AT)
    ensures Lacks(file, EVAL_AT) && Lacks(after, EVAL_AT)
  {
    LacksPart(Middle(file, line, column), after, EVAL_AT);
    assert Middle(file, line, column) == file + (":" + line + ":" + column);
    LacksPart(file, ":" + line + ":" + column, EVAL_AT);
  }

  lemma LacksPart(x: string, y: string, pat: string)
    requires Lacks(x + y, pat)
    ensures Lacks(x, pat) && Lacks(y, pat)
  {
    forall i ensures !At(x, pat, i) && !At(y, pat, i) {
      AtLeft(x, y, pat, i);
      AtRight(x, y, pat, i);
    }
  }

  // ---------------------------------------------------------------- printing back

  /** Printing a parsed origin gives the same string exactly when its numbers were written the way
      they are printed. */
  lemma ReprintIdentical(s: string, lineText: string, columnText: string)
    requires Parse(s).Some?
    requires var o := Parse(s).value;
      && s == o.before + Middle(o.location.file, lineText, columnText) + o.after
      && ParseI64(lineText) == Some(o.location.line) && ParseI64(columnText) == Some(o.location.column)
    ensures Print(Parse(s).value) == s <==> Canonical(lineText) && Canonical(columnText)
  {
    hide Parse, ParseI64, FormatI64, Middle, Canonical;
    PrintedCanonical(lineText);
    PrintedCanonical(columnText);
    var o := Parse(s).value;
    var line, column := FormatI64(o.location.line), FormatI64(o.location.column);
    ParsedText(lineText);
    ParsedText(columnText);
    FormatParses(o.location.line);
    FormatParses(o.location.column);
    assert ':' !in lineText && ':' !in columnText && ':' !in line && ':' !in column;
    if Print(o) == s {
      var a, b := Middle(o.location.file, line, column), Middle(o.location.file, lineText, columnText);
      CancelRight(o.before + a, o.before + b, o.after);
      CancelLeft(o.before, a, b);
      SplitMiddle(o.location.file, line, column);
      SplitMiddle(o.location.file, lineText, columnText);
    }
  }

  lemma CancelRight(a: string, b: string, c: string)
    requires a + c == b + c
    ensures a == b
  {
    assert |a| == |b|;
    assert (a + c)[..|a|] == a && (b + c)[..|b|] == b;
  }

  lemma CancelLeft(a: string, b: string, c: string)
    requires a + b == a + c
    ensures b == c
  {
    assert (a + b)[|a|..] == b && (a + c)[|a|..] == c;
  }

  /** The parts of a location can be found again from the right. */
  lemma SplitMiddle(file: string, line: string, column: string)
    requires ':' !in line && ':' !in column
    ensures var m := Middle(file, line, column); var c1 := |file| + 1 + |line|;
      && RFind(m, ":") == Some(c1) && m[..c1] == file + ":" + line && m[c1 + 1..] == column
      && RFind(m[..c1], ":") == Some(|file|) && m[..c1][..|file|] == file && m[..c1][|file| + 1..] == line
  {
    RFindChar(file + ":" + line, ':', column);
    RFindChar(file, ':', line);
  }

  /** With a new location in the same surroundings, parsing the printed string gives back exactly that
      location, if and only if the file name does not itself contain "eval at ". */
  lemma Reparse(o: Origin)
    requires Framed(o.before, o.after) && IsI64(o.location.line) && IsI64(o.location.column)
    ensures Parse(Print(o)) == Some(o) <==> Lacks(o.location.file, EVAL_AT)
  {
    hide Parse, Lacks, ParseI64, FormatI64, Middle, Framed;
    if Lacks(o.location.file, EVAL_AT) {
      FormatParses(o.location.line);
      FormatParses(o.location.column);
      Accepted(o, FormatI64(o.location.line), FormatI64(o.location.column));
    } else {
      ReparseNested(o);
    }
  }

  lemma SomeAt(s: string, pat: string) returns (k: int)
    requires !Lacks(s, pat)
    ensures At(s, pat, k)
  {
    k :| At(s, pat, k);
  }

  lemma ReparseNested(o: Origin)
    requires !Lacks(o.location.file, EVAL_AT)
    ensures Parse(Print(o)) != Some(o)
  {
    hide Find, Lacks, ParseI64, Locate, FormatI64, FramedBefore;
    var s := Print(o);
    var k := SomeAt(o.location.file, EVAL_AT);
    var m := Middle(o.location.file, FormatI64(o.location.line), FormatI64(o.location.column));
    assert m == o.location.file + (":" + FormatI64(o.location.line) + ":" + FormatI64(o.location.column));
    AtLeft(o.location.file, ":" + FormatI64(o.location.line) + ":" + FormatI64(o.location.column), EVAL_AT, k);
    AtRight(o.before, m, EVAL_AT, k);
    AtLeft(o.before + m, o.after, EVAL_AT, |o.before| + k);
    if Parse(s).Some? {
      FrameOfParse(s);
      assert RFind(s, EVAL_AT).value >= |o.before| + k;
    }
  }

  /** Behind the frame's parenthesis there is no "eval at ". */
  lemma CleanTail(file: string, line: string, column: string, after: string)
    requires Lacks(file, EVAL_AT) && Lacks(after, EVAL_AT) && after != "" && after[0] == ')'
    requires 'e' !in line && 'e' !in column
    ensures Lacks(Middle(file, line, column) + after, EVAL_AT)
  {
    LacksAbsent(line, EVAL_AT, 'e');
    LacksAbsent(column, EVAL_AT, 'e');
    LacksJoin(file, ':', line, EVAL_AT);
    LacksJoin(file + ":" + line, ':', column, EVAL_AT);
    assert after == ")" + after[1..];
    LacksPart(")", after[1..], EVAL_AT);
    LacksJoin(Middle(file, line, column), ')', after[1..], EVAL_AT);
    assert Middle(file, line, column) + ")" + after[1..] == Middle(file, line, column) + after;
  }

  /** The converse of `Lossless`: every framed string whose numerals parse is accepted, and split at
      exactly these places. */
  lemma Accepted(o: Origin, lineText: string, columnText: string)
    requires Framed(o.before, o.after) && Lacks(o.location.file, EVAL_AT)
    requires ParseI64(lineText) == Some(o.location.line) && ParseI64(columnText) == Some(o.location.column)
    ensures Parse(o.before + Middle(o.location.file, lineText, columnText) + o.after) == Some(o)
  {
    hide Find, At, Lacks, ParseI64, Innermost, Locate, FramedBefore, Middle;
    var Location(file, line, column) := o.location;
    ParsedText(lineText);
    ParsedText(columnText);
    CleanTail(file, lineText, columnText, o.after);
    var rest := Middle(file, lineText, columnText) + o.after;
    Associate(o.before, Middle(file, lineText, columnText), o.after);
    var s := o.before + rest;
    LocateAgain(o.location, lineText, columnText, o.after);
    StartOfRest(o.before, rest);
    assert s[|o.before|..] == rest && s[..|o.before|] == o.before;
    LastColon(s, |o.before|);
  }

  /** The frame is found again in front of anything that lacks "eval at ". */
  lemma StartOfRest(before: string, rest: string)
    requires FramedBefore(before) && Lacks(rest, EVAL_AT) && rest != ""
    ensures Innermost(before + rest) == Some(|before|)
  {
    var x := before[..|before| - 1];
    var s := before + rest;
    assert s == x + "(" + rest;
    LastJoin(x, '(', rest, EVAL_AT);
    var n := RFind(x, EVAL_AT).value + |EVAL_AT|;
    FindChar(x[n..], '(', rest);
    assert s[n..] == x[n..] + "(" + rest;
  }

  lemma LocateAgain(at: Location, lineText: string, columnText: string, after: string)
    requires ParseI64(lineText) == Some(at.line) && ParseI64(columnText) == Some(at.column)
    requires after != "" && after[0] == ')' && ':' !in after
    ensures var rest := Middle(at.file, lineText, columnText) + after;
      && Locate(rest) == Some((at, |columnText|)) && RFind(rest, ":").Some?
      && rest[RFind(rest, ":").value + 1 + |columnText|..] == after
  {
    hide Find, At, Lacks, ParseI64, Middle;
    ParsedText(lineText);
    ParsedText(columnText);
    RestParts(at.file, lineText, columnText, after);
  }

  lemma RestParts(file: string, line: string, column: string, after: string)
    requires ':' !in line && ':' !in column && ')' !in column
    requires after != "" && after[0] == ')' && ':' !in after
    ensures var rest := Middle(file, line, column) + after; var c1 := |file| + 1 + |line|;
      && RFind(rest, ":") == Some(c1) && rest[..c1] == file + ":" + line && rest[c1 + 1..] == column + after
      && RFind(rest[..c1], ":") == Some(|file|) && rest[..c1][..|file|] == file && rest[..c1][|file| + 1..] == line
      && Find(column + after, ")") == Some(|column|)
  {
    var rest := Middle(file, line, column) + after;
    assert rest == (file + ":" + line) + ":" + (column + after);
    RFindChar(file + ":" + line, ':', column + after);
    RFindChar(file, ':', line);
    FindChar(column, ')', after[1..]);
    assert column + ")" + after[1..] == column + after;
  }

  /** Formatting replaces the file name, and writes the two numbers in canonical form; what surrounds the
      location stays, and so does a string that does not parse. The result parses into the same origin
      with the new name exactly if that does not itself contain "eval at ". */
  lemma FormatKeepsRest(s: string, formatFile: string -> string) returns (lineText: string, columnText: string)
    ensures Parse(s).None? ==> FormatOrigin(s, formatFile) == s
    ensures Parse(s).Some? ==>
      var o := Parse(s).value;
      var file := formatFile(o.location.file);
      && ParseI64(lineText) == Some(o.location.line) && ParseI64(columnText) == Some(o.location.column)
      && s == o.before + Middle(o.location.file, lineText, columnText) + o.after
      && FormatOrigin(s, formatFile)
         == o.before + Middle(file, FormatI64(o.location.line), FormatI64(o.location.column)) + o.after
      && (Parse(FormatOrigin(s, formatFile)) == Some(o.(location := o.location.(file := file)))
          <==> Lacks(file, EVAL_AT))
  {
    hide Parse, Lacks, ParseI64, FormatI64, Middle, Framed;
    lineText, columnText := "", "";
    if Parse(s).Some? {
      var o := Parse(s).value;
      lineText, columnText := Lossless(s);
      ParsedText(lineText);
      ParsedText(columnText);
      Reparse(o.(location := o.location.(file := formatFile(o.location.file))));
    }
  }

  /** The documentation of `parse_eval_origin` takes the file name of
      "eval at foo (bar at (file://a.ts:1:2))" to start behind the second opening parenthesis; the code
      takes the first one behind the function name. */
  lemma DocumentedExample()
    ensures Parse("eval at foo (" + Middle("bar at (file://a.ts", "1", "2") + "))") ==
      Some(Origin("eval at foo (", Location("bar at (file://a.ts", 1, 2), "))"))
  {
    hide Parse, Lacks, ParseI64, Middle, FramedBefore;
    OneTwo();
    LacksAbsent("))", EVAL_AT, 'e');
    ExampleFrame();
    LacksAbsent("bar at (file://a.ts", EVAL_AT, 'v');
    Accepted(Origin("eval at foo (", Location("bar at (file://a.ts", 1, 2), "))"), "1", "2");
  }

  lemma OneTwo()
    ensures ParseI64("1") == Some(1) && ParseI64("2") == Some(2)
  {
    assert "1"[..0] == "" && "2"[..0] == "";
    assert DigitsValue("1") == 1 && DigitsValue("2") == 2;
  }

  lemma ExampleFrame()
    ensures FramedBefore("eval at foo (")
  {
    var x := "eval at foo ";
    assert "eval at foo ("[..12] == x;
    AtIndex(x, EVAL_AT, 0);
    assert 'e' !in "val at foo ";
    forall i | 1 <= i <= 4 ensures !At(x, EVAL_AT, i) {
      AtIndex(x, EVAL_AT, i);
      assert x[i] == "val at foo "[i - 1];
    }
    assert RFind(x, EVAL_AT) == Some(0);
    assert x[8..] == "foo ";
  }
}
