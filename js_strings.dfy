/** The JavaScript string operations the rule relies on, with their JavaScript
    semantics: `split('\n')`, `join('\n')`, `substr(k)`, indexing `s[k]`, and the
    decimal rendering of a non-negative integer inside a template string. */
module JsStrings {
  import opened Wrappers

  /** `s[k]` in JavaScript: the character at `k`, or `undefined` past the end. */
  function CharAt(s: string, k: nat): (r: Option<char>)
    ensures r.Some? <==> k < |s|
    ensures r.Some? ==> r.value == s[k]
  {
    if k < |s| then Some(s[k]) else None
  }

  /** No line holds a newline. */
  predicate NoNewlines(lines: seq<string>) {
    forall i :: 0 <= i < |lines| ==> '\n' !in lines[i]
  }

  /** `s.split('\n')`: the maximal newline-free pieces, in order. Never empty:
      `"".split('\n')` is `[""]`. The first piece is the prefix of `s` before its
      first newline (the whole of `s` when there is none). */
  function Split(s: string): (r: seq<string>)
    ensures |r| >= 1
    ensures NoNewlines(r)
    ensures r[0] <= s
    ensures |r[0]| < |s| ==> s[|r[0]|] == '\n'
    decreases |s|
  {
    if |s| == 0 then [""]
    else if s[0] == '\n' then [""] + Split(s[1..])
    else
      var rest := Split(s[1..]);
      [[s[0]] + rest[0]] + rest[1..]
  }

  /** `lines.join('\n')`: `[].join('\n')` is `""`. */
  function Join(lines: seq<string>): string
    decreases |lines|
  {
    if |lines| == 0 then ""
    else if |lines| == 1 then lines[0]
    else lines[0] + "\n" + Join(lines[1..])
  }

  lemma {:induction false} JoinPrepend(x: string, lines: seq<string>)
    requires |lines| >= 1
    ensures Join([x + lines[0]] + lines[1..]) == x + Join(lines)
  {
    var extended := [x + lines[0]] + lines[1..];
    if |lines| == 1 {
      assert extended == [x + lines[0]];
    } else {
      assert extended[1..] == lines[1..];
      calc {
        Join(extended);
        extended[0] + "\n" + Join(extended[1..]);
        (x + lines[0]) + "\n" + Join(lines[1..]);
        x + (lines[0] + "\n" + Join(lines[1..]));
      }
    }
  }

  /** Joining the pieces of a split gives back the original text. */
  lemma {:induction false} JoinSplit(s: string)
    ensures Join(Split(s)) == s
    decreases |s|
  {
    if |s| == 0 {
    } else if s[0] == '\n' {
      JoinSplit(s[1..]);
      var rest := Split(s[1..]);
      assert Split(s) == [""] + rest;
      assert ([""] + rest)[1..] == rest;
      assert s == "\n" + s[1..];
    } else {
      JoinSplit(s[1..]);
      JoinPrepend([s[0]], Split(s[1..]));
      assert s == [s[0]] + s[1..];
    }
  }

  /** Prepending a newline-free text only extends the first piece. */
  lemma {:induction false} SplitAppend(a: string, t: string)
    requires '\n' !in a
    ensures Split(a + t) == [a + Split(t)[0]] + Split(t)[1..]
    decreases |a|
  {
    if |a| == 0 {
      assert a + t == t;
      assert a + Split(t)[0] == Split(t)[0];
      assert Split(t) == [Split(t)[0]] + Split(t)[1..];
    } else {
      var s, tail := a + t, a[1..];
      assert s[0] == a[0] && a[0] in a;
      assert s[1..] == tail + t;
      assert forall c :: c in tail ==> c in a;
      SplitAppend(tail, t);
      var rest := Split(s[1..]);
      assert rest == [tail + Split(t)[0]] + Split(t)[1..];
      assert Split(s) == [[a[0]] + rest[0]] + rest[1..];
      assert [a[0]] + (tail + Split(t)[0]) == a + Split(t)[0];
    }
  }

  /** Splitting a join of newline-free lines gives the lines back. */
  lemma {:induction false} SplitJoin(lines: seq<string>)
    requires |lines| >= 1
    requires NoNewlines(lines)
    ensures Split(Join(lines)) == lines
    decreases |lines|
  {
    if |lines| == 1 {
      SplitAppend(lines[0], "");
      assert lines[0] + "" == lines[0];
    } else {
      var tail := Join(lines[1..]);
      SplitJoin(lines[1..]);
      assert ("\n" + tail)[0] == '\n';
      assert ("\n" + tail)[1..] == tail;
      assert Split("\n" + tail) == [""] + Split(tail);
      assert lines[0] + "\n" + tail == lines[0] + ("\n" + tail);
      SplitAppend(lines[0], "\n" + tail);
      assert lines[0] + "" == lines[0];
      assert ([""] + lines[1..])[1..] == lines[1..];
    }
  }

  /** The last piece of a split is empty only when the text is empty or ends in a newline. */
  lemma {:induction false} SplitLastNonEmpty(s: string)
    requires |s| > 0 && s[|s| - 1] != '\n'
    ensures Split(s)[|Split(s)| - 1] != ""
    decreases |s|
  {
    var rest := Split(s[1..]);
    if s[0] == '\n' {
      SplitLastNonEmpty(s[1..]);
      assert Split(s) == [""] + rest;
    } else if |s| > 1 {
      SplitLastNonEmpty(s[1..]);
    }
  }

  /** `line.substr(k)` for `k >= 0`: the line without its first `k` characters,
      `""` when the line is shorter than `k`. */
  function Substr(line: string, k: nat): (r: string)
    ensures k <= |line| ==> line == line[..k] + r
    ensures |line| <= k ==> r == ""
  {
    if k <= |line| then line[k..] else ""
  }

  predicate IsDigit(c: char) {
    '0' <= c <= '9'
  }

  function DigitChar(d: nat): (c: char)
    requires d < 10
    ensures IsDigit(c)
  {
    (48 + d) as char
  }

  function DigitValue(c: char): (d: nat)
    requires IsDigit(c)
    ensures d < 10
  {
    c as int - 48
  }

  /** `${n}` for a non-negative integer: its decimal digits, without leading zeros. */
  function NatToString(n: nat): (r: string)
    ensures |r| >= 1
    ensures forall i :: 0 <= i < |r| ==> IsDigit(r[i])
    ensures r[0] == '0' <==> n == 0
    decreases n
  {
    if n < 10 then [DigitChar(n)] else NatToString(n / 10) + [DigitChar(n % 10)]
  }

  /** The value of a run of decimal digits; the inverse of NatToString. */
  function ParseNat(s: string): nat
    requires forall i :: 0 <= i < |s| ==> IsDigit(s[i])
    decreases |s|
  {
    if |s| == 0 then 0 else ParseNat(s[..|s| - 1]) * 10 + DigitValue(s[|s| - 1])
  }

  lemma {:induction false} ParseNatToString(n: nat)
    ensures ParseNat(NatToString(n)) == n
    decreases n
  {
    var r := NatToString(n);
    if n >= 10 {
      ParseNatToString(n / 10);
      assert r[..|r| - 1] == NatToString(n / 10);
    }
  }

  /** A run of digits without a leading zero (other than `"0"` itself) is the
      decimal rendering of its value: `${n}` is the only way to write `n`. */
  lemma {:induction false} NatToStringParseNat(s: string)
    requires |s| >= 1 && forall i :: 0 <= i < |s| ==> IsDigit(s[i])
    requires s[0] != '0' || |s| == 1
    ensures NatToString(ParseNat(s)) == s
    decreases |s|
  {
    var last := s[|s| - 1];
    assert DigitChar(DigitValue(last)) == last;
    if |s| > 1 {
      var front := s[..|s| - 1];
      assert front[0] == s[0];
      NatToStringParseNat(front);
      var v := ParseNat(front);
      assert v != 0;
      var n := ParseNat(s);
      assert n == v * 10 + DigitValue(last);
      assert n / 10 == v && n % 10 == DigitValue(last);
      assert s == front + [last];
    }
  }

  /** The length of the run of decimal digits at the start of `s`. */
  function DigitRun(s: string): (n: nat)
    ensures n <= |s|
    ensures forall i :: 0 <= i < n ==> IsDigit(s[i])
    ensures n < |s| ==> !IsDigit(s[n])
    decreases |s|
  {
    if |s| == 0 || !IsDigit(s[0]) then 0 else 1 + DigitRun(s[1..])
  }

  /** A digit run is determined by where the digits stop. */
  lemma {:induction false} DigitRunIs(s: string, n: nat)
    requires n <= |s|
    requires forall i :: 0 <= i < n ==> IsDigit(s[i])
    requires n < |s| ==> !IsDigit(s[n])
    ensures DigitRun(s) == n
    decreases n
  {
    if n > 0 {
      DigitRunIs(s[1..], n - 1);
    }
  }
}
