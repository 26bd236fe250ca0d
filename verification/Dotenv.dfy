/** The dotenv reader and writer: a round trip over line-oriented text. */
module Dotenv {
  import opened Replies

  datatype Setting = Setting(key: string, value: string)

  // ----- Characters and lines -----

  /** What `str.strip` removes. */
  predicate IsSpace(c: char) {
    || c in " \t\n\r" || c == '\U{000B}' || c == '\U{000C}' || '\U{001C}' <= c <= '\U{001F}'
    || c == '\U{0085}' || c == '\U{00A0}' || c == '\U{1680}' || '\U{2000}' <= c <= '\U{200A}'
    || c == '\U{2028}' || c == '\U{2029}' || c == '\U{202F}' || c == '\U{205F}' || c == '\U{3000}'
  }

  predicate IsBreak(c: char) {
    c == '\n' || c == '\r'
  }

  function LStrip(s: string): string {
    if s != "" && IsSpace(s[0]) then LStrip(s[1..]) else s
  }

  function RStrip(s: string): string {
    if s != "" && IsSpace(s[|s| - 1]) then RStrip(s[..|s| - 1]) else s
  }

  function Strip(s: string): string {
    RStrip(LStrip(s))
  }

  predicate NoBreak(s: string) {
    forall c <- s :: !IsBreak(c)
  }

  /** The text before the first line break of either kind. */
  function UpToBreak(s: string): (r: string)
    ensures r <= s && NoBreak(r)
    ensures r == s || IsBreak(s[|r|])
  {
    if s == "" || IsBreak(s[0]) then "" else [s[0]] + UpToBreak(s[1..])
  }

  /** Reading in text mode: `\r\n` and `\r` become `\n`. */
  function Universal(s: string): string {
    if s == "" then ""
    else if s[0] != '\r' then [s[0]] + Universal(s[1..])
    else if |s| > 1 && s[1] == '\n' then "\n" + Universal(s[2..])
    else "\n" + Universal(s[1..])
  }

  function FirstLine(s: string): (r: string)
    ensures r <= s && '\n' !in r
    ensures r == s || s[|r|] == '\n'
  {
    if s == "" || s[0] == '\n' then "" else [s[0]] + FirstLine(s[1..])
  }

  /** The lines of a text, split at `\n` only. */
  function Lines(s: string): (ls: seq<string>)
    ensures |ls| > 0
  {
    var p := FirstLine(s);
    if p == s then [s] else [p] + Lines(s[|p| + 1..])
  }

  function Unlines(ls: seq<string>): string
    requires |ls| > 0
  {
    if |ls| == 1 then ls[0] else ls[0] + "\n" + Unlines(ls[1..])
  }

  function DropTrailingNewlines(s: string): string {
    if s != "" && s[|s| - 1] == '\n' then DropTrailingNewlines(s[..|s| - 1]) else s
  }

  // ----- Reading -----

  predicate Matches(line: string, key: string) {
    key + "=" <= line
  }

  /** Index of the first line of the form `key=...`, or the number of lines. */
  function FindLine(ls: seq<string>, key: string): (i: nat)
    ensures i <= |ls|
    ensures i < |ls| ==> Matches(ls[i], key)
    ensures forall k :: 0 <= k < i ==> !Matches(ls[k], key)
  {
    if ls == [] || Matches(ls[0], key) then 0 else 1 + FindLine(ls[1..], key)
  }

  function AfterEquals(line: string): string {
    if line == "" then "" else if line[0] == '=' then line[1..] else AfterEquals(line[1..])
  }

  function FirstMatch(ls: seq<string>, key: string): Option<string> {
    var i := FindLine(ls, key);
    if i < |ls| then Some(ls[i]) else None
  }

  function Lookup(ls: seq<string>, key: string): Option<string> {
    var line := FirstMatch(ls, key);
    if line.Some? then Some(Strip(AfterEquals(line.value))) else None
  }

  /** `env_file_value` on the raw bytes of an existing file, as text. */
  function Value(text: string, key: string): Option<string> {
    Lookup(Lines(Universal(text)), key)
  }

  // ----- Writing -----

  function LineOf(key: string, value: string): string {
    key + "=" + value
  }

  predicate IsOctal(c: char) {
    '0' <= c <= '7'
  }

  function OctalValue(c: char): (v: nat)
    requires IsOctal(c)
    ensures v < 8
  {
    c as int - '0' as int
  }

  /** How many characters a numeric escape takes, digits of `s` first: `\0` and up to two more
      octal digits, or three octal digits of at most 0o377. Zero stands for an error: any other
      number refers to a group, and the pattern has none. */
  function OctalLength(s: string): (n: nat)
    requires s != ""
    ensures n <= |s| && n <= 3 && forall i :: 0 <= i < n ==> IsOctal(s[i])
  {
    if s[0] == '0' then
      if |s| < 2 || !IsOctal(s[1]) then 1 else if |s| < 3 || !IsOctal(s[2]) then 2 else 3
    else if |s| >= 3 && '1' <= s[0] <= '3' && IsOctal(s[1]) && IsOctal(s[2]) then 3 else 0
  }

  function OctalChar(digits: string): char
    requires 1 <= |digits| <= 3 && forall c <- digits :: IsOctal(c)
    requires |digits| == 3 ==> digits[0] <= '3'
  {
    var v := if |digits| == 1 then OctalValue(digits[0])
             else if |digits| == 2 then 8 * OctalValue(digits[0]) + OctalValue(digits[1])
             else 64 * OctalValue(digits[0]) + 8 * OctalValue(digits[1]) + OctalValue(digits[2]);
    v as char
  }

  /** The escape at the start of a template: the characters it takes and what they become.
      An unknown escape of a letter is an error; any other character keeps its backslash. */
  function Escape(t: string): (r: Option<(nat, string)>)
    requires |t| > 1 && t[0] == '\\'
    ensures r.Some? ==> 2 <= r.value.0 <= |t|
  {
    match t[1]
    case '\\' => Some((2, "\\"))
    case 'n' => Some((2, "\n"))
    case 'r' => Some((2, "\r"))
    case 't' => Some((2, "\t"))
    case 'a' => Some((2, "\U{0007}"))
    case 'b' => Some((2, "\U{0008}"))
    case 'f' => Some((2, "\U{000C}"))
    case 'v' => Some((2, "\U{000B}"))
    case c =>
      if '0' <= c <= '9' then
        var n := OctalLength(t[1..]);
        if n == 0 then None else Some((1 + n, [OctalChar(t[1..1 + n])]))
      else if IsAlphanumeric(c) then None
      else Some((2, ['\\', c]))
  }

  /** A replacement template of the regular-expression library, its escapes expanded. */
  function Template(t: string): Reply<string> {
    if t == "" then Answer("")
    else if t[0] != '\\' then
      var rest :- Template(t[1..]);
      Answer([t[0]] + rest)
    else if |t| == 1 || Escape(t).None? then Raises
    else
      var (n, e) := Escape(t).value;
      var rest :- Template(t[n..]);
      Answer(e + rest)
  }

  /** No escape is expanded: every backslash precedes a character that keeps it. */
  predicate Literal(t: string) {
    t == "" ||
    if t[0] != '\\' then Literal(t[1..])
    else |t| > 1 && t[1] != '\\' && !IsAlphanumeric(t[1]) && Literal(t[2..])
  }

  predicate IsAlphanumeric(c: char) {
    'a' <= c <= 'z' || 'A' <= c <= 'Z' || '0' <= c <= '9'
  }

  /** The value that reaches the file: expanded as a template when its key exists. */
  function Effective(content: string, key: string, value: string): Reply<string> {
    if FindLine(Lines(content), key) < |Lines(content)| then Template(value) else Answer(value)
  }

  /** One setting: replace the first matching line, or append after the last text. */
  function WriteOne(content: string, key: string, value: string): Reply<string> {
    var ls := Lines(content);
    var i := FindLine(ls, key);
    if i < |ls| then
      var line :- Template(LineOf(key, value));
      Answer(Unlines(ls[i := line]))
    else Answer(DropTrailingNewlines(content) + "\n" + LineOf(key, value) + "\n")
  }

  function WriteAll(content: string, settings: seq<Setting>): Reply<string>
    decreases |settings|
  {
    if settings == [] then Answer(content) else
      var next :- WriteOne(content, settings[0].key, settings[0].value);
      WriteAll(next, settings[1..])
  }

  /** The file on disk. */
  class EnvFile {
    var text: Option<string>

    constructor (text: Option<string>)
      ensures this.text == text
    {
      this.text := text;
    }

    /** Rewrite a set of fields in one transaction: all of them, or nothing changes. */
    method WriteEnvSettings(settings: seq<Setting>) returns (r: Reply<()>)
      modifies this
      ensures r.Answer? <==> old(text).Some? && WriteAll(Universal(old(text).value), settings).Answer?
      ensures r.Answer? ==> text == Some(WriteAll(Universal(old(text).value), settings).value)
      ensures !r.Answer? ==> text == old(text)
      ensures old(text).Some? && Plain(settings) ==>
                r.Answer? && forall s <- settings :: EnvFileValue(s.key) == Some(Strip(s.value))
    {
      if text.Some? && Plain(settings) {
        SettingsRoundTrip(text.value, settings);
      }
      if text.None? {
        return Raises;
      }
      var content := Universal(text.value);
      var i := 0;
      while i < |settings|
        invariant 0 <= i <= |settings|
        invariant text == old(text)
        invariant WriteAll(content, settings[i..]) == WriteAll(Universal(text.value), settings)
      {
        var next :- WriteOne(content, settings[i].key, settings[i].value);
        assert settings[i..][1..] == settings[i + 1..];
        content := next;
        i := i + 1;
      }
      text := Some(content);
      return Done;
    }

    function EnvFileValue(key: string): Option<string>
      reads this
    {
      if text.None? then None else Value(text.value, key)
    }
  }

  // ----- Numeric escapes -----

  /** The number these octal digits write. */
  function Octal(digits: string): nat
    requires forall c <- digits :: IsOctal(c)
  {
    if digits == "" then 0 else 8 * Octal(digits[..|digits| - 1]) + OctalValue(digits[|digits| - 1])
  }

  /** A backslash and a digit stand for the character of an octal number: from `\0` with as many
      of the next two digits as are octal, or from three octal digits of at most 0o377. With any
      other digits they are an error. */
  lemma NumericEscapes(t: string)
    requires |t| > 1 && t[0] == '\\' && '0' <= t[1] <= '9'
    ensures Escape(t).Some? <==>
              t[1] == '0' || (|t| > 3 && '1' <= t[1] <= '3' && IsOctal(t[2]) && IsOctal(t[3]))
    ensures Escape(t).Some? ==>
              var (n, e) := Escape(t).value;
              && (forall c <- t[1..n] :: IsOctal(c)) && |e| == 1 && e[0] as int == Octal(t[1..n])
              && n <= 4 && (n < 4 ==> t[1] == '0' && (n == |t| || !IsOctal(t[n])))
  {
    var n := OctalLength(t[1..]);
    if n > 0 {
      var digits := t[1..1 + n];
      assert forall c <- digits :: IsOctal(c);
      assert Octal(digits[..0]) == 0;
      assert digits[..1][..0] == digits[..0] && Octal(digits[..1]) == OctalValue(digits[0]);
      if n > 1 {
        assert digits[..2][..1] == digits[..1] && Octal(digits[..2]) == 8 * OctalValue(digits[0]) + OctalValue(digits[1]);
      }
      assert digits[..n] == digits && (n == 3 ==> digits[..3][..2] == digits[..2]);
    }
  }

  // ----- Lines and joins -----

  lemma {:induction false} FirstLineIs(p: string, rest: string)
    requires '\n' !in p && (rest == "" || rest[0] == '\n')
    ensures FirstLine(p + rest) == p
  {
    if p == "" {
      assert p + rest == rest;
    } else {
      FirstLineIs(p[1..], rest);
      assert (p + rest)[1..] == p[1..] + rest;
    }
  }

  lemma SingleLine(a: string)
    requires '\n' !in a
    ensures Lines(a) == [a]
  {
    FirstLineIs(a, "");
    assert a + "" == a;
  }

  lemma LinesCons(p: string, b: string)
    requires '\n' !in p
    ensures Lines(p + "\n" + b) == [p] + Lines(b)
  {
    FirstLineIs(p, "\n" + b);
    assert p + ("\n" + b) == p + "\n" + b;
    assert (p + "\n" + b)[|p| + 1..] == b;
  }

  lemma {:induction false} LinesHaveNoNewline(s: string)
    ensures forall l <- Lines(s) :: '\n' !in l
    decreases |s|
  {
    var p := FirstLine(s);
    if p != s {
      LinesHaveNoNewline(s[|p| + 1..]);
    }
  }

  lemma Associate<T>(a: seq<T>, b: seq<T>, c: seq<T>)
    ensures (a + b) + c == a + (b + c)
  {
  }

  lemma Regroup(p: string, rest: string, b: string)
    ensures (p + "\n" + rest) + "\n" + b == p + "\n" + (rest + "\n" + b)
  {
  }

  lemma {:induction false} LinesConcat(a: string, b: string)
    ensures Lines(a + "\n" + b) == Lines(a) + Lines(b)
    decreases |a|
  {
    var p := FirstLine(a);
    if p == a {
      LinesCons(a, b);
      SingleLine(a);
    } else {
      var rest := a[|p| + 1..];
      assert a == p + "\n" + rest;
      hide Lines, FirstLine;
      LinesConcat(rest, b);
      LinesCons(p, rest);
      LinesCons(p, rest + "\n" + b);
      Regroup(p, rest, b);
      Associate([p], Lines(rest), Lines(b));
    }
  }

  lemma {:induction false} LinesOfUnlines(ls: seq<string>)
    requires |ls| > 0 && forall l <- ls :: '\n' !in l
    ensures Lines(Unlines(ls)) == ls
  {
    SingleLine(ls[0]);
    if |ls| > 1 {
      LinesOfUnlines(ls[1..]);
      LinesConcat(ls[0], Unlines(ls[1..]));
    }
  }

  lemma {:induction false} UnlinesOfLines(s: string)
    ensures Unlines(Lines(s)) == s
    decreases |s|
  {
    var p := FirstLine(s);
    if p != s {
      UnlinesOfLines(s[|p| + 1..]);
      assert ([p] + Lines(s[|p| + 1..]))[1..] == Lines(s[|p| + 1..]);
      assert s == p + "\n" + s[|p| + 1..];
    }
  }

  lemma {:induction false} UnlinesConcat(x: seq<string>, y: seq<string>)
    requires |x| > 0 && |y| > 0
    ensures Unlines(x + y) == Unlines(x) + "\n" + Unlines(y)
  {
    if |x| == 1 {
      assert (x + y)[1..] == y;
    } else {
      UnlinesConcat(x[1..], y);
      assert (x + y)[1..] == x[1..] + y;
      assert (x + y)[0] == x[0];
    }
  }

  lemma {:induction false} UniversalHasNoReturn(s: string)
    ensures '\r' !in Universal(s)
    decreases |s|
  {
    if s == "" {
    } else if s[0] == '\r' && |s| > 1 && s[1] == '\n' {
      UniversalHasNoReturn(s[2..]);
    } else {
      UniversalHasNoReturn(s[1..]);
    }
  }

  /** Text without `\r` passes unchanged in front of anything. */
  lemma {:induction false} UniversalPrefix(a: string, b: string)
    requires '\r' !in a
    ensures Universal(a + b) == a + Universal(b)
  {
    if a == "" {
      assert a + b == b;
    } else {
      UniversalPrefix(a[1..], b);
      assert (a + b)[1..] == a[1..] + b;
    }
  }

  lemma UniversalSame(s: string)
    requires '\r' !in s
    ensures Universal(s) == s
  {
    UniversalPrefix(s, "");
    assert s + "" == s;
  }

  /** What is left of a text after its first break, a `\r\n` counting as one. */
  function AfterBreak(s: string): (r: string)
    requires UpToBreak(s) != s
    ensures |r| < |s|
    ensures forall c <- r :: c in s[|UpToBreak(s)|..]
  {
    var i := |UpToBreak(s)|;
    if s[i] == '\r' && i + 1 < |s| && s[i + 1] == '\n' then s[i + 2..] else s[i + 1..]
  }

  /** The lines that a text with a break in it adds after its first one. */
  function BrokenLines(s: string): seq<string> {
    if UpToBreak(s) == s then [] else Lines(Universal(AfterBreak(s)))
  }

  /** Lines made of characters of this text. */
  predicate WithinTail(lines: seq<string>, tail: string) {
    forall l <- lines, c <- l :: c in tail
  }

  /** The same lines, but for a blank one at the end. */
  predicate SameButBlank(extra: seq<string>, broken: seq<string>) {
    broken == extra || broken == extra + [""]
  }

  lemma UniversalBreak(tail: string, after: string)
    requires tail != "" && IsBreak(tail[0])
    requires after == if tail[0] == '\r' && |tail| > 1 && tail[1] == '\n' then tail[2..] else tail[1..]
    ensures Universal(tail) == "\n" + Universal(after)
  {
  }

  lemma AtBreak(s: string) returns (p: string, after: string, tail: string)
    requires UpToBreak(s) != s
    ensures p == UpToBreak(s) && after == AfterBreak(s) && s == p + tail && '\r' !in p
    ensures tail != "" && IsBreak(tail[0])
    ensures after == if tail[0] == '\r' && |tail| > 1 && tail[1] == '\n' then tail[2..] else tail[1..]
  {
    hide UpToBreak;
    p, after := UpToBreak(s), AfterBreak(s);
    tail := s[|p|..];
  }

  lemma UniversalAtBreak(s: string)
    requires UpToBreak(s) != s
    ensures Universal(s) == UpToBreak(s) + "\n" + Universal(AfterBreak(s))
  {
    var p, after, tail := AtBreak(s);
    hide *;
    UniversalPrefix(p, tail);
    UniversalBreak(tail, after);
    Associate(p, "\n", Universal(after));
  }

  lemma LinesAtBreak(s: string)
    requires UpToBreak(s) != s
    ensures Lines(Universal(s)) == [UpToBreak(s)] + Lines(Universal(AfterBreak(s)))
  {
    UniversalAtBreak(s);
    LinesCons(UpToBreak(s), Universal(AfterBreak(s)));
  }

  lemma {:induction false} UpToBreakOf(p: string, rest: string)
    requires NoBreak(p) && (rest == "" || IsBreak(rest[0]))
    ensures UpToBreak(p + rest) == p
  {
    if p == "" {
      assert p + rest == rest;
    } else {
      UpToBreakOf(p[1..], rest);
      assert (p + rest)[1..] == p[1..] + rest;
    }
  }

  lemma CutFirst(p: string, t: string, q: string)
    requires p <= t
    ensures t + q == p + (t[|p|..] + q)
  {
  }

  lemma UpToBreakOfLonger(t: string, q: string)
    requires q == "" || q[0] == '\n'
    ensures UpToBreak(t + q) == UpToBreak(t)
  {
    var p := UpToBreak(t);
    hide UpToBreak;
    CutFirst(p, t, q);
    UpToBreakOf(p, t[|p|..] + q);
  }

  lemma DropOfConcat(t: string, q: string, k: nat)
    requires k <= |t|
    ensures (t + q)[k..] == t[k..] + q
  {
  }

  lemma DropPastConcat(t: string, q: string)
    requires q != ""
    ensures (t + q)[|t| + 1..] == q[1..]
  {
  }

  lemma AfterBreakOfLonger(t: string, q: string)
    requires q == "" || q[0] == '\n'
    requires UpToBreak(t) != t && UpToBreak(t + q) == UpToBreak(t)
    ensures AfterBreak(t + q) ==
            if t[|UpToBreak(t)|..] == "\r" && q != "" then q[1..] else AfterBreak(t) + q
  {
    hide UpToBreak;
    var n := |UpToBreak(t)|;
    assert (t + q)[n] == t[n];
    if t[n] == '\r' && n + 1 < |t| && t[n + 1] == '\n' {
      assert (t + q)[n + 1] == t[n + 1] && |t[n..]| > 1;
      DropOfConcat(t, q, n + 2);
    } else if t[n] == '\r' && n + 1 == |t| && q != "" {
      assert (t + q)[n + 1] == q[0] && t[n..] == "\r";
      DropPastConcat(t, q);
    } else {
      assert n + 1 < |t| ==> (t + q)[n + 1] == t[n + 1];
      assert t[n..][0] == t[n] && |t[n..]| == |t| - n;
      DropOfConcat(t, q, n + 1);
    }
  }

  /** The lines read back from `t` followed by the end of its line: the part of `t` before
      its first break, lines made of what follows it, and the lines after. */
  lemma {:induction false} LinesOfBroken(t: string, q: string) returns (extra: seq<string>)
    requires '\r' !in q && (q == "" || q[0] == '\n')
    ensures Lines(Universal(t + q)) == [UpToBreak(t)] + extra + (if q == "" then [] else Lines(q[1..]))
    ensures WithinTail(extra, t[|UpToBreak(t)|..])
    ensures NoBreak(t) ==> extra == []
    ensures SameButBlank(extra, BrokenLines(t))
    decreases |t|
  {
    var p := UpToBreak(t);
    hide Lines, Universal, UpToBreak, FirstLine, AfterBreak;
    UpToBreakOfLonger(t, q);
    if p == t {
      extra := [];
      LinesOfUnbroken(t, q);
    } else {
      LinesAtBreak(t + q);
      AfterBreakOfLonger(t, q);
      if t[|p|..] == "\r" && q != "" {
        extra := [];
        UniversalSame(q[1..]);
        LoneReturn(t);
      } else {
        var u := AfterBreak(t);
        var inner := LinesOfBroken(u, q);
        extra := [UpToBreak(u)] + inner;
        LinesStart(u);
        assert [UpToBreak(u)] + (inner + [""]) == extra + [""];
        AssociateFour([p], [UpToBreak(u)], inner, if q == "" then [] else Lines(q[1..]));
      }
    }
  }

  lemma LinesStart(u: string)
    ensures Lines(Universal(u)) == [UpToBreak(u)] + BrokenLines(u)
  {
    hide Lines, Universal, UpToBreak, FirstLine, AfterBreak;
    if UpToBreak(u) == u {
      LinesOfUnbroken(u, "");
      assert u + "" == u && [u] + [] == [u];
    } else {
      LinesAtBreak(u);
    }
  }

  lemma LoneReturn(t: string)
    requires UpToBreak(t) != t && t[|UpToBreak(t)|..] == "\r"
    ensures BrokenLines(t) == [""]
  {
    assert AfterBreak(t) == "" by { hide UpToBreak; }
    hide UpToBreak;
    SingleLine("");
  }

  lemma LinesOfUnbroken(t: string, q: string)
    requires NoBreak(t) && '\r' !in q && (q == "" || q[0] == '\n')
    ensures Lines(Universal(t + q)) == [t] + if q == "" then [] else Lines(q[1..])
  {
    hide Lines, Universal, FirstLine;
    UniversalSame(t + q);
    if q == "" {
      SingleLine(t);
      assert t + q == t;
    } else {
      LinesCons(t, q[1..]);
      assert t + q == t + "\n" + q[1..];
    }
  }

  lemma AssociateFour<T>(a: seq<T>, b: seq<T>, c: seq<T>, d: seq<T>)
    ensures a + (b + c + d) == a + (b + c) + d
  {
  }

  // ----- Stripping -----

  predicate AllSpace(s: string) {
    forall c <- s :: IsSpace(c)
  }

  lemma LastOff(s: string, k: nat)
    requires k < |s|
    ensures s[k..] == s[..|s| - 1][k..] + [s[|s| - 1]]
  {
  }

  lemma {:induction false} RStripShape(s: string)
    ensures RStrip(s) <= s && AllSpace(s[|RStrip(s)|..])
    ensures RStrip(s) != "" ==> !IsSpace(s[|RStrip(s)| - 1])
  {
    if s != "" && IsSpace(s[|s| - 1]) {
      var t := s[..|s| - 1];
      RStripShape(t);
      LastOff(s, |RStrip(t)|);
    }
  }

  lemma {:induction false} RStripSpaces(a: string, ws: string)
    requires AllSpace(ws)
    ensures RStrip(a + ws) == RStrip(a)
    decreases |ws|
  {
    if ws == "" {
      assert a + ws == a;
    } else {
      var n := |ws| - 1;
      assert (a + ws)[..|a + ws| - 1] == a + ws[..n];
      assert (a + ws)[|a + ws| - 1] == ws[n];
      RStripSpaces(a, ws[..n]);
    }
  }

  lemma {:induction false} LStripPrefix(a: string, b: string)
    ensures LStrip(a + b) == if LStrip(a) != "" then LStrip(a) + b else LStrip(b)
    ensures LStrip(a) == "" <==> AllSpace(a)
    decreases |a|
  {
    if a == "" {
      assert a + b == b;
    } else if IsSpace(a[0]) {
      LStripPrefix(a[1..], b);
      assert (a + b)[1..] == a[1..] + b;
    }
  }

  lemma StripSpaces(a: string, ws: string)
    requires AllSpace(ws)
    ensures Strip(a + ws) == Strip(a)
  {
    LStripPrefix(a, ws);
    LStripPrefix(ws, "");
    assert ws + "" == ws;
    if LStrip(a) != "" {
      RStripSpaces(LStrip(a), ws);
    }
  }

  lemma {:induction false} UpToBreakShort(v: string, i: nat)
    requires i < |v| && IsBreak(v[i])
    ensures |UpToBreak(v)| <= i
  {
    if i > 0 && !IsBreak(v[0]) {
      UpToBreakShort(v[1..], i - 1);
    }
  }

  lemma StripCutInside(r: string, n: nat)
    requires n < |r| && !IsSpace(r[|r| - 1])
    ensures Strip(r[..n]) != Strip(r)
  {
    var u, rest := r[..n], r[n..];
    assert r == u + rest;
    LastKept(r);
    LStripPrefix(u, rest);
    RStripShape(LStrip(u));
  }

  lemma CutOf(r: string, ws: string, n: nat)
    requires n <= |r + ws|
    ensures n <= |r| ==> (r + ws)[..n] == r[..n]
    ensures n >= |r| ==> (r + ws)[..n] == r + ws[..n - |r|]
  {
  }

  /** Cutting a value at its first break loses nothing but whitespace exactly when the
      value has no break before its trailing whitespace. */
  lemma StripUpToBreak(v: string)
    ensures Strip(UpToBreak(v)) == Strip(v) <==> NoBreak(RStrip(v))
  {
    var r, n := RStrip(v), |UpToBreak(v)|;
    assert UpToBreak(v) == v[..n];
    RStripShape(v);
    var ws := v[|r|..];
    assert v == r + ws && r == v[..|r|];
    hide Strip, RStrip, LStrip, UpToBreak, IsSpace, IsBreak;
    StripSpaces(r, ws);
    if NoBreak(r) {
      var m := NoBreakLength(v, |r|);
      CutOf(r, ws, n);
      StripSpaces(r, ws[..n - |r|]);
    } else {
      var i :| 0 <= i < |r| && IsBreak(r[i]);
      UpToBreakShort(v, i);
      CutOf(r, ws, n);
      StripCutInside(r, n);
    }
  }

  lemma {:induction false} NoBreakLength(v: string, m: nat) returns (n: nat)
    requires m <= |v| && NoBreak(v[..m])
    ensures n == |UpToBreak(v)| >= m
  {
    n := |UpToBreak(v)|;
    if m > 0 {
      assert v[..m][0] == v[0] && v[..m][1..] == v[1..][..m - 1];
      var k := NoBreakLength(v[1..], m - 1);
    }
  }

  /** Leading whitespace is all that stripping takes from text that ends in a character. */
  lemma {:induction false} LastKept(r: string)
    requires r != "" && !IsSpace(r[|r| - 1])
    ensures LStrip(r) != "" && Strip(r) == LStrip(r)
  {
    if IsSpace(r[0]) {
      LastKept(r[1..]);
    }
  }

  // ----- Looking up in written lines -----

  predicate ValidKey(key: string) {
    forall c <- key :: !IsBreak(c) && c != '=' && c != '\\'
  }

  lemma {:induction false} MatchSkip(x: seq<string>, y: seq<string>, key: string)
    requires forall l <- x :: !Matches(l, key)
    ensures FirstMatch(x + y, key) == FirstMatch(y, key)
  {
    if x == [] {
      assert x + y == y;
    } else {
      MatchSkip(x[1..], y, key);
      assert (x + y)[1..] == x[1..] + y;
      assert (x + y)[0] == x[0];
      FindStep(x + y, key);
    }
  }

  lemma FindStep(ls: seq<string>, key: string)
    requires ls != [] && !Matches(ls[0], key)
    ensures FirstMatch(ls, key) == FirstMatch(ls[1..], key)
  {
    assert FindLine(ls, key) == 1 + FindLine(ls[1..], key);
  }

  lemma {:induction false} AfterEqualsOf(key: string, w: string)
    requires '=' !in key
    ensures AfterEquals(LineOf(key, w)) == w
  {
    if key != "" {
      AfterEqualsOf(key[1..], w);
      assert LineOf(key, w)[1..] == LineOf(key[1..], w);
    }
  }

  function BeforeEquals(line: string): string {
    if line == "" || line[0] == '=' then "" else [line[0]] + BeforeEquals(line[1..])
  }

  lemma {:induction false} BeforeEqualsOf(key: string, w: string)
    requires '=' !in key
    ensures BeforeEquals(LineOf(key, w)) == key
  {
    if key != "" {
      BeforeEqualsOf(key[1..], w);
      assert LineOf(key, w)[1..] == LineOf(key[1..], w);
    }
  }

  lemma MatchSplits(l: string, key: string) returns (w: string)
    requires Matches(l, key)
    ensures l == LineOf(key, w) && '=' in l
  {
    w := l[|key| + 1..];
    assert l[|key|] == (key + "=")[|key|];
  }

  lemma MatchesOwnKey(key: string, other: string, w: string)
    requires '=' !in key && '=' !in other
    ensures Matches(LineOf(key, w), other) <==> key == other
  {
    BeforeEqualsOf(key, w);
    if Matches(LineOf(key, w), other) {
      var rest := MatchSplits(LineOf(key, w), other);
      BeforeEqualsOf(other, rest);
    }
    assert LineOf(key, w) == (key + "=") + w;
  }

  lemma NoEqualsNoMatch(l: string, key: string)
    requires '=' !in l
    ensures !Matches(l, key)
  {
    if Matches(l, key) {
      var _ := MatchSplits(l, key);
    }
  }

  // ----- One write, read back -----

  function Before(front: seq<string>): string {
    if front == [] then "" else Unlines(front) + "\n"
  }

  function After(back: seq<string>): string {
    if back == [] then "" else "\n" + Unlines(back)
  }

  predicate CleanLines(ls: seq<string>) {
    forall l <- ls :: NoBreak(l)
  }

  lemma {:induction false} TemplateLiteral(t: string)
    requires Literal(t)
    ensures Template(t) == Answer(t)
  {
    if t == "" {
    } else if t[0] != '\\' {
      TemplateLiteral(t[1..]);
      assert [t[0]] + t[1..] == t;
    } else {
      TemplateLiteral(t[2..]);
      assert ['\\', t[1]] + t[2..] == t;
    }
  }

  /** Text without backslashes passes unchanged in front of a template. */
  lemma {:induction false} TemplateAfter(plain: string, t: string)
    requires '\\' !in plain
    ensures var r := Template(plain + t);
            r == if Template(t).Answer? then Answer(plain + Template(t).value) else Template(t)
  {
    hide Escape;
    if plain == "" {
      assert plain + t == t;
      if Template(t).Answer? {
        assert "" + Template(t).value == Template(t).value;
      }
    } else {
      TemplateAfter(plain[1..], t);
      assert (plain + t)[1..] == plain[1..] + t;
      if Template(t).Answer? {
        assert [plain[0]] + (plain[1..] + Template(t).value) == plain + Template(t).value;
      }
    }
  }

  lemma TemplateOfLine(key: string, value: string)
    requires ValidKey(key)
    ensures Template(LineOf(key, value)) ==
            if Template(value).Answer? then Answer(LineOf(key, Template(value).value)) else Template(value)
  {
    TemplateAfter(key + "=", value);
  }

  lemma Around(front: seq<string>, t: string, back: seq<string>)
    ensures Unlines(front + [t] + back) == Before(front) + t + After(back)
  {
    var rest := [t] + back;
    assert Unlines(rest) == t + After(back) by {
      if back != [] {
        UnlinesConcat([t], back);
        assert Unlines([t]) == t;
        Associate(t, "\n", Unlines(back));
      } else {
        assert rest == [t];
      }
    }
    if front != [] {
      assert Before(front) == Unlines(front) + "\n";
      hide *;
      UnlinesConcat(front, rest);
      Associate(front, [t], back);
      Associate(Unlines(front) + "\n", t, After(back));
    } else {
      assert front + [t] + back == rest;
      assert Before(front) + t + After(back) == t + After(back);
    }
  }

  lemma {:induction false} CleanUnlines(ls: seq<string>)
    requires |ls| > 0 && forall l <- ls :: '\r' !in l
    ensures '\r' !in Unlines(ls)
  {
    if |ls| > 1 {
      CleanUnlines(ls[1..]);
    }
  }

  /** Reading back a text made of clean lines around `t`. */
  lemma ReadBack(front: seq<string>, t: string, back: seq<string>) returns (extra: seq<string>)
    requires CleanLines(front) && CleanLines(back)
    ensures Lines(Universal(Before(front) + t + After(back))) == front + [UpToBreak(t)] + extra + back
    ensures WithinTail(extra, t[|UpToBreak(t)|..])
    ensures NoBreak(t) ==> extra == []
    ensures SameButBlank(extra, BrokenLines(t))
  {
    hide Lines, Universal, UpToBreak, Unlines, BrokenLines;
    var p, q := Before(front), After(back);
    if back != [] {
      CleanUnlines(back);
      LinesOfUnlines(back);
      assert q[1..] == Unlines(back);
    }
    extra := LinesOfBroken(t, q);
    var tail := [UpToBreak(t)] + extra + back;
    assert p + t + q == p + (t + q);
    if front == [] {
      assert p + t + q == t + q;
      assert front + [UpToBreak(t)] + extra + back == tail;
    } else {
      CleanUnlines(front);
      UniversalPrefix(p, t + q);
      LinesConcat(Unlines(front), Universal(t + q));
      LinesOfUnlines(front);
      assert front + [UpToBreak(t)] + extra + back == front + tail;
    }
  }

  lemma {:induction false} LinesDropped(content: string) returns (blanks: seq<string>)
    ensures Lines(content) == Lines(DropTrailingNewlines(content)) + blanks
    ensures forall l <- blanks :: l == ""
  {
    if content != "" && content[|content| - 1] == '\n' {
      var d := content[..|content| - 1];
      var inner := LinesDropped(d);
      assert DropTrailingNewlines(content) == DropTrailingNewlines(d);
      assert content == d + "\n" + "";
      hide *;
      LinesConcat(d, "");
      SingleLine("");
      blanks := inner + [""];
      Associate(Lines(DropTrailingNewlines(d)), inner, [""]);
    } else {
      blanks := [];
    }
  }

  lemma SplitAt<T>(s: seq<T>, i: nat, x: T)
    requires i < |s|
    ensures s[i := x] == s[..i] + [x] + s[i + 1..]
    ensures s == s[..i] + [s[i]] + s[i + 1..]
  {
  }

  /** The lines of a text before and after one write: either a matching line is replaced
      in place, or the line goes after the last non-blank one. */
  lemma Written(content: string, key: string, value: string)
    returns (front: seq<string>, gone: seq<string>, back: seq<string>)
    requires '\r' !in content && ValidKey(key) && Effective(content, key, value).Answer?
    ensures WriteOne(content, key, value) ==
            Answer(Before(front) + LineOf(key, Effective(content, key, value).value) + After(back))
    ensures CleanLines(front) && CleanLines(back)
    ensures forall l <- front :: !Matches(l, key)
    ensures (Lines(content) == front + gone + back && |gone| == 1 && Matches(gone[0], key)) ||
            (Lines(content) == front + gone && back == [""] && front == Lines(DropTrailingNewlines(content))
             && forall l <- gone :: l == "")
  {
    hide Lines, Unlines, Template;
    var ls := Lines(content);
    var i := FindLine(ls, key);
    LinesHaveNoNewline(content);
    UnlinesOfLines(content);
    LinesHaveNoReturn(ls);
    TemplateOfLine(key, value);
    if i < |ls| {
      var line := LineOf(key, Template(value).value);
      front, gone, back := ls[..i], [ls[i]], ls[i + 1..];
      Around(front, line, back);
      SplitAt(ls, i, line);
    } else {
      var d := DropTrailingNewlines(content);
      gone := LinesDropped(content);
      front, back := Lines(d), [""];
      UnlinesOfLines(d);
      OneLine("");
      assert forall l <- front :: l in ls;
      assert d + "\n" + LineOf(key, value) + "\n" == d + "\n" + LineOf(key, value) + ("\n" + "");
    }
  }

  lemma WriteNeedsEffective(content: string, key: string, value: string)
    requires ValidKey(key)
    ensures WriteOne(content, key, value).Answer? <==> Effective(content, key, value).Answer?
    ensures Literal(value) ==> Effective(content, key, value) == Answer(value)
  {
    TemplateOfLine(key, value);
    if Literal(value) {
      TemplateLiteral(value);
    }
  }

  lemma OneLine(l: string)
    ensures Unlines([l]) == l
  {
  }

  lemma {:induction false} LinesHaveNoReturn(ls: seq<string>)
    requires |ls| > 0 && '\r' !in Unlines(ls) && forall l <- ls :: '\n' !in l
    ensures CleanLines(ls)
  {
    if |ls| > 1 {
      assert Unlines(ls) == ls[0] + "\n" + Unlines(ls[1..]);
      assert forall c :: c in Unlines(ls[1..]) ==> c in Unlines(ls);
      assert forall c :: c in ls[0] ==> c in Unlines(ls);
      LinesHaveNoReturn(ls[1..]);
    }
  }

  lemma UpToBreakOfLine(key: string, value: string)
    requires ValidKey(key)
    ensures UpToBreak(LineOf(key, value)) == LineOf(key, UpToBreak(value))
    ensures LineOf(key, value)[|LineOf(key, UpToBreak(value))|..] == value[|UpToBreak(value)|..]
  {
    var p := LineOf(key, UpToBreak(value));
    assert LineOf(key, value) == p + value[|UpToBreak(value)|..];
    UpToBreakOf(p, value[|UpToBreak(value)|..]);
  }

  lemma BrokenLinesOfLine(key: string, w: string)
    requires ValidKey(key)
    ensures BrokenLines(LineOf(key, w)) == BrokenLines(w)
  {
    UpToBreakOfLine(key, w);
    var t, head := LineOf(key, w), key + "=";
    assert t == head + w && LineOf(key, UpToBreak(w)) == head + UpToBreak(w);
    hide UpToBreak, LineOf, Lines, Universal;
    if UpToBreak(w) != w {
      AfterBreakOfPrefixed(head, w);
    } else {
      assert UpToBreak(t) == t;
    }
  }

  lemma AfterBreakOfPrefixed(head: string, w: string)
    requires UpToBreak(w) != w && UpToBreak(head + w) == head + UpToBreak(w)
    ensures UpToBreak(head + w) != head + w && AfterBreak(head + w) == AfterBreak(w)
  {
    var n, h := |UpToBreak(w)|, |head|;
    hide UpToBreak;
    assert |head + UpToBreak(w)| == h + n < |head + w|;
    assert (head + w)[h + n] == w[n];
    if n + 1 < |w| {
      assert (head + w)[h + n + 1] == w[n + 1];
      if n + 2 <= |w| {
        DropPastPrefix(head, w, n + 2);
      }
    }
    DropPastPrefix(head, w, n + 1);
  }

  lemma DropPastPrefix(head: string, w: string, k: nat)
    requires k <= |w|
    ensures (head + w)[|head| + k..] == w[k..]
  {
  }

  /** The lines of the file before and after one write that puts `w` in it. */
  lemma WrittenLines(text: string, key: string, value: string, w: string)
    returns (front: seq<string>, gone: seq<string>, extra: seq<string>, back: seq<string>, result: string)
    requires ValidKey(key) && Effective(Universal(text), key, value) == Answer(w)
    ensures WriteOne(Universal(text), key, value) == Answer(result)
    ensures Lines(Universal(result)) == front + (([LineOf(key, UpToBreak(w))] + extra) + back)
    ensures forall l <- front :: !Matches(l, key)
    ensures WithinTail(extra, w[|UpToBreak(w)|..])
    ensures SameButBlank(extra, BrokenLines(w))
    ensures var ls := Lines(Universal(text));
            (ls == front + gone + back && |gone| == 1 && Matches(gone[0], key)) ||
            (ls == front + gone && back == [""] && front == Lines(DropTrailingNewlines(Universal(text)))
             && forall l <- gone :: l == "")
  {
    UniversalHasNoReturn(text);
    UpToBreakOfLine(key, w);
    BrokenLinesOfLine(key, w);
    var line := LineOf(key, UpToBreak(w));
    hide *;
    front, gone, back := Written(Universal(text), key, value);
    extra := ReadBack(front, LineOf(key, w), back);
    result := Before(front) + LineOf(key, w) + After(back);
    Associate(front, [line], extra);
    Associate(front, [line] + extra, back);
  }

  /** After one write the first line of the key is the written one, cut at its first break. */
  lemma OwnLineWritten(text: string, key: string, value: string, w: string) returns (result: string)
    requires ValidKey(key) && Effective(Universal(text), key, value) == Answer(w)
    ensures WriteOne(Universal(text), key, value) == Answer(result)
    ensures FirstMatch(Lines(Universal(result)), key) == Some(LineOf(key, UpToBreak(w)))
  {
    var front, gone, extra, back, r := WrittenLines(text, key, value, w);
    hide Lines, Universal, UpToBreak, WriteOne, Effective;
    result := r;
    var line := LineOf(key, UpToBreak(w));
    var rest := ([line] + extra) + back;
    MatchSkip(front, rest, key);
    MatchesOwnKey(key, key, UpToBreak(w));
    assert rest[0] == line;
  }

  // ----- Every other line survives -----

  lemma FoundAfter(front: seq<string>, gone: seq<string>, back: seq<string>, key: string)
    requires |gone| == 1 && Matches(gone[0], key) && forall l <- front :: !Matches(l, key)
    ensures var ls := front + gone + back;
            FindLine(ls, key) == |front| && ls[..|front|] == front && ls[|front| + 1..] == back
  {
    var ls := front + gone + back;
    assert ls[|front|] == gone[0];
    assert forall k :: 0 <= k < |front| ==> ls[k] == front[k];
  }

  lemma FoundNowhere(front: seq<string>, blanks: seq<string>, key: string)
    requires (forall l <- front :: !Matches(l, key)) && forall l <- blanks :: l == ""
    ensures var ls := front + blanks;
            FindLine(ls, key) == |ls| && ls[..|front|] == front && forall k :: |front| <= k < |ls| ==> ls[k] == ""
  {
    var ls := front + blanks;
    forall k | 0 <= k < |ls| ensures !Matches(ls[k], key) {
      assert ls[k] in front || ls[k] in blanks;
    }
    forall k | |front| <= k < |ls| ensures ls[k] == "" {
      assert ls[k] in blanks;
    }
  }

  /** The lines of a text that ends in no line break, or is empty, end in a line that is not
      blank, or are that one blank line. */
  lemma {:induction false} LastLineNotBlank(s: string)
    requires s == "" || s[|s| - 1] != '\n'
    ensures |Lines(s)| == 1 || Lines(s)[|Lines(s)| - 1] != ""
    ensures s != "" ==> Lines(s)[|Lines(s)| - 1] != ""
    decreases |s|
  {
    var p := FirstLine(s);
    if p != s {
      LastLineNotBlank(s[|p| + 1..]);
    }
  }

  lemma {:induction false} KeptEnd(content: string)
    ensures var ls := Lines(DropTrailingNewlines(content)); |ls| == 1 || ls[|ls| - 1] != ""
  {
    if content != "" && content[|content| - 1] == '\n' {
      KeptEnd(content[..|content| - 1]);
    } else {
      LastLineNotBlank(content);
    }
  }

  /** These lines take the place of the first line of the key, or stand behind the last line
      that is not blank if the key has none; every other line stays as it is. */
  predicate WrittenInto(ls: seq<string>, key: string, written: seq<string>, kept: nat, after: seq<string>) {
    var i := FindLine(ls, key);
    && 0 < kept <= |ls|
    && (i < |ls| ==> kept == i + 1 && after == ls[..i] + (written + ls[i + 1..]))
    && (i == |ls| ==>
          && (kept == 1 || ls[kept - 1] != "") && (forall k :: kept <= k < |ls| ==> ls[k] == "")
          && after == ls[..kept] + (written + [""]))
  }

  lemma IntoLine(front: seq<string>, gone: seq<string>, back: seq<string>, key: string, written: seq<string>)
    requires |gone| == 1 && Matches(gone[0], key) && forall l <- front :: !Matches(l, key)
    ensures WrittenInto(front + gone + back, key, written, |front| + 1, front + (written + back))
  {
    FoundAfter(front, gone, back, key);
    hide FindLine, Matches;
  }

  lemma BehindLines(front: seq<string>, blanks: seq<string>, key: string, written: seq<string>)
    requires (forall l <- front :: !Matches(l, key)) && forall l <- blanks :: l == ""
    requires |front| > 0 && (|front| == 1 || front[|front| - 1] != "")
    ensures WrittenInto(front + blanks, key, written, |front|, front + (written + [""]))
  {
    FoundNowhere(front, blanks, key);
    hide FindLine, Matches;
  }

  /** The lines of a text around the one that a write replaces, or before the blank ones that
      it drops. */
  predicate SplitsAtKey(content: string, key: string, front: seq<string>, gone: seq<string>, back: seq<string>) {
    && (forall l <- front :: !Matches(l, key))
    && ((Lines(content) == front + gone + back && |gone| == 1 && Matches(gone[0], key)) ||
        (Lines(content) == front + gone && back == [""] && front == Lines(DropTrailingNewlines(content))
         && forall l <- gone :: l == ""))
  }

  lemma SplitWritten(content: string, key: string, front: seq<string>, gone: seq<string>, back: seq<string>,
                     written: seq<string>)
    returns (kept: nat)
    requires SplitsAtKey(content, key, front, gone, back)
    ensures WrittenInto(Lines(content), key, written, kept, front + (written + back))
  {
    KeptEnd(content);
    hide Lines, DropTrailingNewlines, Matches, FindLine;
    if |gone| == 1 && Matches(gone[0], key) && Lines(content) == front + gone + back {
      hide WrittenInto;
      IntoLine(front, gone, back, key, written);
      kept := |front| + 1;
    } else {
      hide WrittenInto;
      BehindLines(front, gone, key, written);
      kept := |front|;
    }
  }

  /** What one write does to the lines of a file. If the key has a line, the first one is
      replaced where it stands, and every other line stays as it is and where it is; if it has
      none, the new line goes behind the last line that is not blank, and all lines up to there
      stay. A value with a line break in it spills into further lines, which come directly
      after its own. */
  lemma OtherLinesSurvive(text: string, key: string, value: string, w: string)
    returns (kept: nat, extra: seq<string>, result: string)
    requires ValidKey(key) && Effective(Universal(text), key, value) == Answer(w)
    ensures WriteOne(Universal(text), key, value) == Answer(result)
    ensures SameButBlank(extra, BrokenLines(w))
    ensures WrittenInto(Lines(Universal(text)), key, [LineOf(key, UpToBreak(w))] + extra, kept,
                        Lines(Universal(result)))
  {
    var front, gone, e, back, r := WrittenLines(text, key, value, w);
    extra, result := e, r;
    assert SplitsAtKey(Universal(text), key, front, gone, back);
    hide *;
    kept := SplitWritten(Universal(text), key, front, gone, back, [LineOf(key, UpToBreak(w))] + extra);
  }

  /** One without adds none. */
  lemma NothingSpills(w: string, extra: seq<string>)
    requires SameButBlank(extra, BrokenLines(w))
    ensures NoBreak(w) ==> extra == []
  {
  }

  /** Writing a setting and reading it back gives the stripped value exactly when the value
      has no line break before its trailing whitespace and, if the key already has a line,
      no backslash escape that the replacement would expand. */
  lemma RoundTripExactlyWhen(text: string, key: string, value: string)
    requires ValidKey(key)
    ensures var r := WriteOne(Universal(text), key, value);
            (r.Answer? && Value(r.value, key) == Some(Strip(value))) <==>
            (NoBreak(RStrip(value)) && (Value(text, key).Some? ==> Literal(value)))
  {
    var effective := Effective(Universal(text), key, value);
    WriteNeedsEffective(Universal(text), key, value);
    if effective.Answer? {
      var w := effective.value;
      var result := OwnLineWritten(text, key, value, w);
      AfterEqualsOf(key, UpToBreak(w));
      StripUpToBreak(value);
      if w != value || !Literal(value) {
        if Value(text, key).Some? {
          ExpansionShortens(value, w);
        }
      }
    }
  }

  /** A value with an inner carriage return, written to a new key, does not come back. */
  lemma InnerReturnIsLost()
    ensures var r := WriteOne(Universal(""), "K", "a\rb");
            !(r.Answer? && Value(r.value, "K") == Some(Strip("a\rb")))
  {
    hide WriteOne, Value, Strip, Universal;
    RoundTripExactlyWhen("", "K", "a\rb");
    var kept := RStrip("a\rb");
    assert kept[1] == '\r' && kept[1] in kept;
  }

  /** A value with a backslash before a letter, written over an existing line, neither. */
  lemma EscapeIsLost()
    ensures var r := WriteOne(Universal("K=x"), "K", "a\\tb");
            !(r.Answer? && Value(r.value, "K") == Some(Strip("a\\tb")))
  {
    assert Value("K=x", "K").Some? by {
      UniversalSame("K=x");
      SingleLine("K=x");
      assert "K" + "=" <= "K=x";
    }
    assert !Literal("a\\tb") by { assert "a\\tb"[1..] == "\\tb"; }
    hide *;
    RoundTripExactlyWhen("K=x", "K", "a\\tb");
  }

  // ----- Expanded escapes never read back -----

  lemma {:induction false} RStripPrefix(a: string, b: string)
    ensures RStrip(a + b) == if RStrip(b) != "" then a + RStrip(b) else RStrip(a)
    decreases |b|
  {
    if b == "" {
      assert a + b == a;
    } else {
      var n := |b| - 1;
      assert (a + b)[..|a + b| - 1] == a + b[..n] && (a + b)[|a + b| - 1] == b[n];
      if IsSpace(b[n]) {
        RStripPrefix(a, b[..n]);
      }
    }
  }

  lemma StripPrefixShort(a: string, b: string)
    ensures |Strip(a)| <= |Strip(a + b)| && |Strip(a)| <= |a|
  {
    LStripPrefix(a, b);
    LStripPrefix(a, "");
    if LStrip(a) != "" {
      RStripPrefix(LStrip(a), b);
      RStripShape(LStrip(a));
      LStripShape(a);
    }
  }

  lemma {:induction false} LStripShape(s: string)
    ensures |LStrip(s)| <= |s| && LStrip(s) == s[|s| - |LStrip(s)|..] && AllSpace(s[..|s| - |LStrip(s)|])
    ensures LStrip(s) != "" ==> !IsSpace(LStrip(s)[0])
  {
    if s != "" && IsSpace(s[0]) {
      LStripShape(s[1..]);
      var n := |s| - |LStrip(s)|;
      assert s[..n] == [s[0]] + s[1..][..n - 1];
    }
  }

  /** One escape: kept as it is, or expanded to a single character; beyond its second
      character it takes octal digits only. */
  lemma EscapePair(t: string) returns (n: nat, e: string)
    requires |t| > 1 && t[0] == '\\' && Template(t).Answer?
    ensures 2 <= n <= |t| && forall i :: 2 <= i < n ==> IsOctal(t[i])
    ensures Template(t[n..]).Answer? && Template(t).value == e + Template(t[n..]).value
    ensures if |e| == 2 then n == 2 && e == t[..2] && (Literal(t) <==> Literal(t[2..])) else |e| == 1 && !Literal(t)
  {
    n, e := Escape(t).value.0, Escape(t).value.1;
    EscapeShape(t);
    hide Escape, Literal;
    KeptOrNot(t, n, e);
  }

  lemma EscapeShape(t: string)
    requires |t| > 1 && t[0] == '\\' && Escape(t).Some?
    ensures var (n, e) := Escape(t).value;
            && (forall i :: 2 <= i < n ==> IsOctal(t[i]))
            && (if |e| == 2 then n == 2 && e == ['\\', t[1]] && t[1] != '\\' && !IsAlphanumeric(t[1])
                else |e| == 1 && (t[1] == '\\' || IsAlphanumeric(t[1])))
  {
    if '0' <= t[1] <= '9' {
      var s := t[1..];
      forall i | 2 <= i < 1 + OctalLength(s) ensures IsOctal(t[i]) {
        assert t[i] == s[i - 1];
      }
    }
  }

  lemma KeptOrNot(t: string, n: nat, e: string)
    requires |t| > 1 && t[0] == '\\'
    requires if |e| == 2 then n == 2 && e == ['\\', t[1]] && t[1] != '\\' && !IsAlphanumeric(t[1])
             else |e| == 1 && (t[1] == '\\' || IsAlphanumeric(t[1]))
    ensures if |e| == 2 then e == t[..2] && (Literal(t) <==> Literal(t[2..])) else !Literal(t)
  {
  }

  /** Trailing whitespace survives expansion, and what precedes it only gets shorter. */
  lemma {:induction false} ExpansionKeepsTail(p: string, ws: string) returns (w: string)
    requires AllSpace(ws) && Template(p + ws).Answer?
    ensures Template(p + ws).value == w + ws && |w| <= |p|
    ensures !Literal(p + ws) ==> |w| < |p|
    decreases |p|
  {
    if p == "" {
      assert p + ws == ws;
      SpaceIsLiteral(ws);
      TemplateLiteral(ws);
      w := "";
      assert w + ws == ws;
    } else if p[0] != '\\' {
      assert (p + ws)[1..] == p[1..] + ws;
      var inner := ExpansionKeepsTail(p[1..], ws);
      w := [p[0]] + inner;
      assert w + ws == [p[0]] + (inner + ws);
    } else {
      var n, e := EscapePair(p + ws);
      hide Template, Literal;
      if |p| == 1 {
        LoneBackslashTakesOne(ws, n);
        assert (p + ws)[2..] == ws[1..];
        SpaceIsLiteral(ws[1..]);
        TemplateLiteral(ws[1..]);
        LoneBackslashKept(ws);
        w := p;
        assert e == ['\\', ws[0]];
        assert ['\\', ws[0]] + ws[1..] == p + ws;
      } else {
        EscapeStaysInside(p, ws, n);
        assert (p + ws)[n..] == p[n..] + ws;
        var inner := ExpansionKeepsTail(p[n..], ws);
        w := e + inner;
        assert w + ws == e + (inner + ws);
      }
    }
  }

  /** An escape takes no whitespace but as its second character. */
  lemma EscapeStaysInside(p: string, ws: string, n: nat)
    requires |p| >= 2 && AllSpace(ws) && 2 <= n <= |p + ws| && forall i :: 2 <= i < n ==> IsOctal((p + ws)[i])
    ensures n <= |p|
  {
    assert ws != "" ==> ws[0] in ws && !IsOctal(ws[0]) && (p + ws)[|p|] == ws[0];
  }

  lemma LoneBackslashTakesOne(ws: string, n: nat)
    requires AllSpace(ws) && 2 <= n <= |"\\" + ws| && forall i :: 2 <= i < n ==> IsOctal(("\\" + ws)[i])
    ensures n == 2
  {
    assert |ws| > 1 ==> ws[1] in ws && !IsOctal(ws[1]) && ("\\" + ws)[2] == ws[1];
  }

  lemma LoneBackslashKept(ws: string)
    requires ws != "" && AllSpace(ws)
    ensures Literal("\\" + ws)
  {
    assert IsSpace(ws[0]);
    assert ("\\" + ws)[2..] == ws[1..];
    SpaceIsLiteral(ws[1..]);
  }

  lemma {:induction false} SpaceIsLiteral(ws: string)
    requires AllSpace(ws)
    ensures Literal(ws)
  {
    if ws != "" {
      assert IsSpace(ws[0]);
      SpaceIsLiteral(ws[1..]);
    }
  }

  lemma {:induction false} LiteralAfter(plain: string, t: string)
    requires '\\' !in plain
    ensures Literal(plain + t) <==> Literal(t)
  {
    if plain == "" {
      assert plain + t == t;
    } else {
      LiteralAfter(plain[1..], t);
      assert (plain + t)[1..] == plain[1..] + t;
    }
  }

  /** A value as leading whitespace, core and trailing whitespace. */
  lemma ValueParts(value: string) returns (lead: string, core: string, ws: string)
    ensures value == lead + (core + ws) && core == Strip(value)
    ensures AllSpace(lead) && AllSpace(ws) && '\\' !in lead
    ensures core != "" ==> !IsSpace(core[0]) && !IsSpace(core[|core| - 1])
  {
    var body := LStrip(value);
    LStripShape(value);
    core := RStrip(body);
    RStripShape(body);
    lead, ws := value[..|value| - |body|], body[|core|..];
    hide LStrip, RStrip;
  }

  lemma ExpansionShortens(value: string, w: string)
    requires Template(value) == Answer(w)
    ensures Literal(value) ==> w == value
    ensures !Literal(value) ==> Strip(UpToBreak(w)) != Strip(value)
  {
    hide Strip, LStrip, RStrip, UpToBreak, Literal, Template;
    if Literal(value) {
      TemplateLiteral(value);
    } else {
      var lead, core, ws := ValueParts(value);
      LiteralAfter(lead, core + ws);
      TemplateAfter(lead, core + ws);
      var short := ExpansionKeepsTail(core, ws);
      StripOf(lead, short, ws);
      assert w == UpToBreak(w) + w[|UpToBreak(w)|..];
      StripPrefixShort(UpToBreak(w), w[|UpToBreak(w)|..]);
    }
  }

  lemma StripOf(lead: string, short: string, ws: string)
    requires AllSpace(lead) && AllSpace(ws)
    ensures |Strip(lead + (short + ws))| <= |short|
  {
    LStripPrefix(lead, short + ws);
    StripSpaces(short, ws);
    StripPrefixShort(short, "");
  }

  // ----- Other keys -----

  /** Under the same condition every other key reads as before. */
  lemma OtherKeysUntouched(text: string, key: string, value: string, other: string)
    requires ValidKey(key) && NoBreak(RStrip(value)) && (Value(text, key).Some? ==> Literal(value))
    requires ValidKey(other) && other != key
    ensures var r := WriteOne(Universal(text), key, value);
            && r.Answer?
            && FirstMatch(Lines(Universal(r.value)), other) == FirstMatch(Lines(Universal(text)), other)
            && Value(r.value, other) == Value(text, other)
  {
    WriteNeedsEffective(Universal(text), key, value);
    var front, gone, extra, back, result := WrittenLines(text, key, value, value);
    TailIsSpace(value);
    var line := LineOf(key, UpToBreak(value));
    NewLinesUnmatched(key, UpToBreak(value), extra, value[|UpToBreak(value)|..], other);
    assert '=' !in key && '=' !in other;
    assert FirstMatch(Lines(Universal(result)), other) == FirstMatch(Lines(Universal(text)), other) ==>
             Value(result, other) == Value(text, other);
    hide *;
    MatchSkip([line] + extra, back, other);
    MatchAgree(front, ([line] + extra) + back, back, other);
    GoneUnmatched(Lines(Universal(text)), front, gone, back, key, other);
  }

  lemma {:induction false} FirstMatchAppend(x: seq<string>, y: seq<string>, key: string)
    ensures FirstMatch(x + y, key) == if FirstMatch(x, key).Some? then FirstMatch(x, key) else FirstMatch(y, key)
  {
    if x == [] {
      assert x + y == y;
    } else {
      FirstMatchAppend(x[1..], y, key);
      assert (x + y)[1..] == x[1..] + y && (x + y)[0] == x[0];
    }
  }

  lemma FoundEarlier(x: seq<string>, y: seq<string>, key: string)
    ensures FindLine(x + y, key) < |x| <==> FirstMatch(x, key).Some?
  {
    var i, j := FindLine(x + y, key), FindLine(x, key);
    assert forall k :: 0 <= k < |x| ==> (x + y)[k] == x[k];
    if i < |x| {
      assert Matches(x[i], key);
    }
    if j < |x| {
      assert Matches((x + y)[j], key);
    }
  }

  lemma BlankUnmatched(extra: seq<string>, broken: seq<string>, key: string)
    requires SameButBlank(extra, broken)
    ensures FirstMatch(extra, key) == FirstMatch(broken, key)
  {
    FirstMatchAppend(extra, [""], key);
    assert FirstMatch([""], key).None?;
  }

  /** Where a write looks for `other`: before the key's line or not. */
  lemma FoundBeforeKey(ls: seq<string>, front: seq<string>, gone: seq<string>, back: seq<string>, key: string, other: string)
    requires '=' !in key && '=' !in other && key != other && forall l <- front :: !Matches(l, key)
    requires (ls == front + gone + back && |gone| == 1 && Matches(gone[0], key)) ||
             (ls == front + gone && back == [""] && forall l <- gone :: l == "")
    ensures FindLine(ls, other) < FindLine(ls, key) <==> FirstMatch(front, other).Some?
  {
    if ls == front + gone + back && |gone| == 1 && Matches(gone[0], key) {
      assert ls == front + (gone + back);
      FoundEarlier(front, gone + back, other);
      FoundEarlier(front, gone + back, key);
      assert ls[|front|] == gone[0];
      assert FindLine(ls, key) == |front|;
    } else {
      FoundEarlier(front, gone, other);
      forall k | 0 <= k < |ls| ensures !Matches(ls[k], key) && (k >= |front| ==> !Matches(ls[k], other)) {
        if k < |front| {
          assert ls[k] in front;
        } else {
          assert ls[k] in gone;
        }
      }
    }
  }

  /** Another key reads as before exactly when it has a line before the written one, or no
      line broken off the value matches it, or the first that does reads the same. */
  lemma OtherKeysUntouchedExactlyWhen(text: string, key: string, value: string, other: string, w: string)
    requires ValidKey(key) && ValidKey(other) && other != key && Effective(Universal(text), key, value) == Answer(w)
    ensures var r := WriteOne(Universal(text), key, value);
            var ls, b := Lines(Universal(text)), FirstMatch(BrokenLines(w), other);
            && r.Answer?
            && (Value(r.value, other) == Value(text, other) <==>
                  || FindLine(ls, other) < FindLine(ls, key)
                  || b.None?
                  || Some(Strip(AfterEquals(b.value))) == Value(text, other))
  {
    var front, gone, extra, back, result := WrittenLines(text, key, value, w);
    var line, ls := LineOf(key, UpToBreak(w)), Lines(Universal(text));
    assert '=' !in key && '=' !in other;
    MatchesOwnKey(key, other, UpToBreak(w));
    assert FirstMatch([line], other).None?;
    hide Lines, Universal, BrokenLines, Matches, UpToBreak, LineOf, ValidKey, FindLine;
    FoundBeforeKey(ls, front, gone, back, key, other);
    GoneUnmatched(ls, front, gone, back, key, other);
    FirstMatchAppend(front, back, other);
    FirstMatchAppend(front, ([line] + extra) + back, other);
    FirstMatchAppend([line] + extra, back, other);
    FirstMatchAppend([line], extra, other);
    BlankUnmatched(extra, BrokenLines(w), other);
  }

  lemma NewLinesUnmatched(key: string, first: string, extra: seq<string>, tail: string, other: string)
    requires '=' !in key && '=' !in other && key != other && AllSpace(tail)
    requires WithinTail(extra, tail)
    ensures forall l <- [LineOf(key, first)] + extra :: !Matches(l, other)
  {
    hide Matches;
    MatchesOwnKey(key, other, first);
    forall l | l in extra ensures !Matches(l, other) {
      assert '=' !in tail;
      NoEqualsNoMatch(l, other);
    }
  }

  lemma TailIsSpace(value: string)
    requires NoBreak(RStrip(value))
    ensures AllSpace(value[|UpToBreak(value)|..])
  {
    RStripShape(value);
    var r := RStrip(value);
    assert r == value[..|r|];
    var n := NoBreakLength(value, |r|);
    assert forall c :: c in value[n..] ==> c in value[|r|..];
  }

  lemma {:induction false} MatchAgree(x: seq<string>, y: seq<string>, z: seq<string>, key: string)
    requires FirstMatch(y, key) == FirstMatch(z, key)
    ensures FirstMatch(x + y, key) == FirstMatch(x + z, key)
  {
    if x == [] {
      assert x + y == y && x + z == z;
    } else {
      MatchAgree(x[1..], y, z, key);
      assert (x + y)[1..] == x[1..] + y && (x + z)[1..] == x[1..] + z;
      if !Matches(x[0], key) {
        FindStep(x + y, key);
        FindStep(x + z, key);
      }
    }
  }

  lemma GoneUnmatched(ls: seq<string>, front: seq<string>, gone: seq<string>, back: seq<string>, key: string, other: string)
    requires '=' !in key && '=' !in other && key != other
    requires (ls == front + gone + back && |gone| == 1 && Matches(gone[0], key)) ||
             (ls == front + gone && back == [""] && forall l <- gone :: l == "")
    ensures FirstMatch(ls, other) == FirstMatch(front + back, other)
  {
    if ls == front + gone + back && |gone| == 1 && Matches(gone[0], key) {
      var w := MatchSplits(gone[0], key);
      MatchesOwnKey(key, other, w);
      MatchSkip(gone, back, other);
      MatchAgree(front, gone + back, back, other);
      assert ls == front + (gone + back);
    } else {
      MatchSkip(gone, [], other);
      MatchSkip([""], [], other);
      assert gone + [] == gone && [""] + [] == [""];
      MatchAgree(front, gone, [""], other);
    }
  }

  // ----- A set of settings -----

  /** Settings as callers write them: distinct keys, values of one line, nothing to expand. */
  predicate Plain(settings: seq<Setting>) {
    && (forall s <- settings :: ValidKey(s.key) && NoBreak(s.value) && Literal(s.value))
    && (forall i, j :: 0 <= i < j < |settings| ==> settings[i].key != settings[j].key)
  }

  predicate Holds(text: string, s: Setting) {
    FirstMatch(Lines(Universal(text)), s.key) == Some(LineOf(s.key, s.value))
  }

  lemma NoBreakKept(s: string)
    requires NoBreak(s)
    ensures UpToBreak(s) == s && NoBreak(RStrip(s))
  {
    UpToBreakOf(s, "");
    assert s + "" == s;
    RStripShape(s);
  }

  lemma StaysClean(content: string, key: string, value: string)
    requires '\r' !in content && ValidKey(key) && NoBreak(value) && Literal(value)
    ensures var r := WriteOne(content, key, value); r.Answer? && '\r' !in r.value && Universal(r.value) == r.value
  {
    WriteNeedsEffective(content, key, value);
    var front, gone, back := Written(content, key, value);
    hide Lines, Unlines, WriteOne, Universal;
    AroundIsClean(front, back);
    UniversalSame(Before(front) + LineOf(key, value) + After(back));
  }

  lemma AroundIsClean(front: seq<string>, back: seq<string>)
    requires CleanLines(front) && CleanLines(back)
    ensures '\r' !in Before(front) && '\r' !in After(back)
  {
    hide Unlines;
    if front != [] { CleanUnlines(front); }
    if back != [] { CleanUnlines(back); }
  }

  /** Every written key holds its own line, and no other key's line is touched. */
  lemma {:induction false} AllHold(content: string, settings: seq<Setting>)
    requires '\r' !in content && Plain(settings)
    ensures WriteAll(content, settings).Answer?
    ensures var r := WriteAll(content, settings).value;
            && Universal(r) == r
            && (forall s <- settings :: Holds(r, s))
            && (forall other {:trigger ValidKey(other)} :: ValidKey(other) && (forall s <- settings :: s.key != other) ==>
                  FirstMatch(Lines(Universal(r)), other) == FirstMatch(Lines(content), other))
    decreases |settings|
  {
    UniversalSame(content);
    if settings != [] {
      var s, rest := settings[0], settings[1..];
      StaysClean(content, s.key, s.value);
      NoBreakKept(s.value);
      WriteNeedsEffective(content, s.key, s.value);
      var next := OwnLineWritten(content, s.key, s.value, s.value);
      AllHold(next, rest);
      var r := WriteAll(next, rest).value;
      hide WriteOne, Lines, Universal, UpToBreak, RStrip;
      assert Holds(r, s);
      forall other | ValidKey(other) && (forall s <- settings :: s.key != other)
        ensures FirstMatch(Lines(Universal(r)), other) == FirstMatch(Lines(content), other)
      {
        OtherKeysUntouched(content, s.key, s.value, other);
      }
    }
  }

  lemma {:induction false} Settled(content: string, settings: seq<Setting>)
    requires Universal(content) == content && Plain(settings) && forall s <- settings :: Holds(content, s)
    ensures WriteAll(content, settings) == Answer(content)
    decreases |settings|
  {
    if settings != [] {
      var s := settings[0];
      var ls := Lines(content);
      var i := FindLine(ls, s.key);
      assert Holds(content, s) && ls[i] == LineOf(s.key, s.value);
      TemplateLiteral(s.value);
      TemplateOfLine(s.key, s.value);
      assert ls[i := ls[i]] == ls;
      UnlinesOfLines(content);
      Settled(content, settings[1..]);
    }
  }

  /** The transaction round trip: after writing a plain set of settings every key reads
      back its stripped value, every other key reads as before, and writing the same
      settings again leaves the file as it is. */
  lemma SettingsRoundTrip(text: string, settings: seq<Setting>)
    requires Plain(settings)
    ensures var r := WriteAll(Universal(text), settings);
            && r.Answer?
            && (forall s <- settings :: Value(r.value, s.key) == Some(Strip(s.value)))
            && (forall other :: ValidKey(other) && (forall s <- settings :: s.key != other) ==>
                  Value(r.value, other) == Value(text, other))
            && WriteAll(Universal(r.value), settings) == r
  {
    UniversalHasNoReturn(text);
    AllHold(Universal(text), settings);
    var r := WriteAll(Universal(text), settings).value;
    Settled(r, settings);
    forall s | s in settings ensures Value(r, s.key) == Some(Strip(s.value)) {
      assert Holds(r, s);
      AfterEqualsOf(s.key, s.value);
    }
  }
}
