/** The Game-24 puzzle task: the prompt that states it and the check that
    an answer solves it.  Arithmetic evaluation of the answer is done by an
    outside algebra system; here it is an oracle. */
module Game24 {
  import opened Text

  /** One puzzle: its input line, e.g. "4 4 6 8". */
  datatype Task = Task(input: string)

  /** The prompt template's text before its replacement field. */
  const PromptHead: string := @"RULES:
The main goal is to reach the target '24' using ALL numbers from the input set exactly once using basic arithmetic operations (+ - * /).

CRITICALLY, state is analyzed based on these rules:
    - **RULE A (GOAL ACHIEVED):** If the 'New state' is a valid mathematical expression that evaluates to 24 AND uses a plausible number of the input digits, the distance is EXACTLY 0.
    - **RULE B (NUMERICAL CLOSENESS):** If the 'New state' is a valid expression that does NOT evaluate to 24, calculate its result. The base distance should be `abs(result - 24)`.
    - **RULE C (EFFICIENCY PENALTY):** ADD A PENALTY to the distance based on how many numbers from the input set were used. A state that uses 3 numbers but is still far from 24 is WORSE than a state that uses 2 numbers and is equally far. For example, `(8*4)-6=26` (3 numbers used, distance ~2) is a worse path than `8*4=32` (2 numbers used, distance ~8). Add a penalty of `10 * (number of digits used - 2)`.
    - **RULE D (NON-NUMERIC STATES):** If the 'New state' is not a full expression (e.g., 'numbers 8 and 4 are combined'), estimate distance based on progress. A state with 2 numbers combined might be 75, 3 numbers combined might be 50. The initial state is 100.

EXAMPLES:
Input: 4 4 6 8
<answer>(4 + 8) * (6 - 4) = 24</answer>
Input: 2 9 10 12
<answer>2 * 12 * (10 - 9) = 24</answer>
Input: 4 9 10 13
<answer>(13 - 9) * (10 - 4) = 24</answer>
Input: 1 4 8 8
<answer>(8 / 4 + 1) * 8 = 24</answer>
Input: 5 5 5 9
<answer>5 + 5 + 5 + 9 = 24</answer>

YOUR TASK:
Input: "

  /** The template's text after its replacement field. */
  const PromptTail: string := "\n"

  /** The replacement field the puzzle input goes into. */
  const Field: string := "{input}"

  /** The prompt template as written: the rules and examples, the field
      `{input}`, and a line break. */
  const PromptTemplate: string := PromptHead + Field + PromptTail

  /** Python's `template.format(input=value)`: "{{" and "}}" stand for single
      braces, the field `{input}` for the value, and any other brace makes
      the call fail (None). */
  function Format(template: string, value: string): (r: Option<string>)
    decreases |template|
  {
    if template == [] then Some([])
    else if OccursAt(template, "{{", 0) then Prepend("{", Format(template[2..], value))
    else if OccursAt(template, "}}", 0) then Prepend("}", Format(template[2..], value))
    else if OccursAt(template, Field, 0) then Prepend(value, Format(template[|Field|..], value))
    else if template[0] == '{' || template[0] == '}' then None
    else Prepend([template[0]], Format(template[1..], value))
  }

  function Prepend(a: string, r: Option<string>): Option<string>
  {
    if r.Some? then Some(a + r.value) else None
  }

  predicate BraceFree(s: string)
  {
    '{' !in s && '}' !in s
  }

  /** Text without braces is copied as it stands. */
  lemma {:induction false} FormatPlain(a: string, b: string, value: string)
    requires BraceFree(a)
    ensures Format(a + b, value) == Prepend(a, Format(b, value))
    decreases |a|
  {
    if a != [] {
      var t := a + b;
      assert t[0] == a[0] && a[0] in a;
      assert !OccursAt(t, "{{", 0) && !OccursAt(t, "}}", 0) && !OccursAt(t, Field, 0) by {
        assert |t| < 2 || t[0..2][0] == t[0];
        assert |t| < |Field| || t[0..|Field|][0] == t[0];
      }
      assert t[1..] == a[1..] + b;
      assert forall c :: c in a[1..] ==> c in a;
      FormatPlain(a[1..], b, value);
      assert Format(t, value) == Prepend([a[0]], Prepend(a[1..], Format(b, value)));
      PrependTwice([a[0]], a[1..], Format(b, value));
      assert [a[0]] + a[1..] == a;
    } else {
      assert a + b == b;
      var r := Format(b, value);
      assert r.Some? ==> [] + r.value == r.value;
    }
  }

  lemma PrependTwice(x: string, y: string, r: Option<string>)
    ensures Prepend(x, Prepend(y, r)) == Prepend(x + y, r)
  {
    if r.Some? {
      assert x + (y + r.value) == x + y + r.value;
    }
  }

  /** The field is replaced by the value. */
  lemma FormatField(b: string, value: string)
    ensures Format(Field + b, value) == Prepend(value, Format(b, value))
  {
    var t := Field + b;
    assert t[..|Field|] == Field && t[|Field|..] == b;
    assert t[0] == '{' && t[1] == 'i';
  }

  /** A template with one field and no other brace gives the text around
      the field with the value in its place. */
  lemma FormatOneField(a: string, b: string, value: string)
    requires BraceFree(a) && BraceFree(b)
    ensures Format(a + Field + b, value) == Some(a + value + b)
  {
    assert a + Field + b == a + (Field + b);
    FormatPlain(a, Field + b, value);
    FormatField(b, value);
    FormatPlain(b, [], value);
    assert b + [] == b;
    assert a + (value + b) == a + value + b;
  }

  /** A closing brace that is not doubled makes the call fail. */
  lemma FormatLoneClose(a: string, value: string)
    requires BraceFree(a)
    ensures Format(a + "}", value) == None
  {
    FormatPlain(a, "}", value);
  }

  /** The template holds the field once, right after its leading text. */
  lemma TemplateField()
    ensures OccursAt(PromptTemplate, Field, |PromptHead|)
    ensures PromptTemplate[..|PromptHead|] == PromptHead
    ensures PromptTemplate[|PromptHead| + |Field|..] == PromptTail
  {
    Join3(PromptHead, Field, PromptTail);
  }

  /** `get_prompt`: the template with the puzzle input in place of the field
      `{input}`; the text around the field is left as it is. */
  function GetPrompt(task: Task): (p: string)
    ensures OccursAt(PromptTemplate, Field, |PromptHead|)
    ensures p == PromptTemplate[..|PromptHead|] + task.input + PromptTemplate[|PromptHead| + |Field|..]
  {
    TemplateField();
    PromptHead + task.input + PromptTail
  }

  /** When the template's text holds no brace, `GetPrompt` is exactly what
      `str.format` makes of the template. */
  lemma GetPromptFormats(task: Task)
    requires BraceFree(PromptHead)
    ensures Format(PromptTemplate, task.input) == Some(GetPrompt(task))
  {
    assert BraceFree(PromptTail);
    FormatOneField(PromptHead, PromptTail, task.input);
  }

  /** Where the three parts of a joined string lie. */
  lemma Join3(a: string, b: string, c: string)
    ensures var s := a + b + c;
      && |s| == |a| + |b| + |c|
      && s[..|a|] == a && s[|a|..|a| + |b|] == b && s[|a| + |b|..] == c
  {
  }

  // ---------------------------------------------------------------------
  // Cutting the expression out of an answer

  /** Python's `str.isspace` for one character: the characters `str.strip()`
      removes. */
  predicate IsSpace(c: char)
  {
    || c == ' ' || '\t' <= c <= '\r' || '\U{1c}' <= c <= '\U{1f}'
    || c == '\U{85}' || c == '\U{a0}' || c == '\U{1680}'
    || '\U{2000}' <= c <= '\U{200a}' || c == '\U{2028}' || c == '\U{2029}'
    || c == '\U{202f}' || c == '\U{205f}' || c == '\U{3000}'
  }

  /** `s.lstrip()`: `s` without its leading whitespace. */
  function TrimStart(s: string): (r: string)
    ensures |r| <= |s| && r == s[|s| - |r|..]
    ensures forall i :: 0 <= i < |s| - |r| ==> IsSpace(s[i])
    ensures r == [] || !IsSpace(r[0])
  {
    if s != [] && IsSpace(s[0]) then
      var r := TrimStart(s[1..]);
      assert forall i :: 1 <= i < |s| - |r| ==> s[i] == s[1..][i - 1];
      r
    else s
  }

  /** `s.rstrip()`: `s` without its trailing whitespace. */
  function TrimEnd(s: string): (r: string)
    ensures |r| <= |s| && r == s[..|r|]
    ensures forall i :: |r| <= i < |s| ==> IsSpace(s[i])
    ensures r == [] || !IsSpace(r[|r| - 1])
  {
    if s != [] && IsSpace(s[|s| - 1]) then
      var r := TrimEnd(s[..|s| - 1]);
      assert forall i :: |r| <= i < |s| - 1 ==> s[i] == s[..|s| - 1][i];
      r
    else s
  }

  function Strip(s: string): string
  {
    TrimEnd(TrimStart(s))
  }

  /** `s.split('\n')[-1]`: the text after the last line break. */
  function LastLine(s: string): (r: string)
    ensures '\n' !in r
    ensures |r| <= |s| && r == s[|s| - |r|..]
    ensures |r| < |s| ==> s[|s| - |r| - 1] == '\n'
  {
    if s == [] then []
    else if s[|s| - 1] == '\n' then []
    else
      var q := LastLine(s[..|s| - 1]);
      assert s[|s| - |q| - 1..] == s[..|s| - 1][|s| - 1 - |q|..] + [s[|s| - 1]];
      assert |q| + 1 < |s| ==> s[|s| - |q| - 2] == s[..|s| - 1][|s| - 1 - |q| - 1];
      q + [s[|s| - 1]]
  }

  function LowerChar(c: char): char
  {
    if 'A' <= c <= 'Z' then (c as int - 'A' as int + 'a' as int) as char else c
  }

  /** `s.lower()`, for the ASCII letters. */
  function Lower(s: string): (r: string)
    ensures |r| == |s|
    ensures forall i :: 0 <= i < |s| ==> r[i] == LowerChar(s[i])
    ensures forall c :: c in r ==> !('A' <= c <= 'Z')
    ensures forall c :: c in r && !('a' <= c <= 'z') ==> c in s
  {
    seq(|s|, i requires 0 <= i < |s| => LowerChar(s[i]))
  }

  /** `s.replace(pat, '')`: every occurrence of `pat` found by one
      left-to-right scan is dropped; occurrences that the removal itself
      brings together are kept. */
  function RemoveAll(s: string, pat: string): (r: string)
    requires pat != []
    ensures |r| <= |s|
    ensures forall c :: c in r ==> c in s
    decreases |s|
  {
    if |s| < |pat| then s
    else if OccursAt(s, pat, 0) then RemoveAll(s[|pat|..], pat)
    else [s[0]] + RemoveAll(s[1..], pat)
  }

  /** The removal goes left to right: the text before the first occurrence
      is kept, that occurrence is dropped, and the removal goes on after it. */
  lemma RemoveAllFirst(s: string, pat: string, i: nat)
    requires pat != [] && FindFrom(s, pat, 0) == Some(i)
    ensures RemoveAll(s, pat) == s[..i] + RemoveAll(s[i + |pat|..], pat)
  {
    FindFromFirst(s, pat, 0);
    RemoveAllKeeps(s, pat, i);
    var t := s[i..];
    assert t[0..|pat|] == s[i..i + |pat|] && t[|pat|..] == s[i + |pat|..];
    DropFirst(t, pat);
  }

  /** An occurrence at the front is dropped. */
  lemma DropFirst(s: string, pat: string)
    requires pat != [] && OccursAt(s, pat, 0)
    ensures RemoveAll(s, pat) == RemoveAll(s[|pat|..], pat)
  {
  }

  /** A stretch at the front that holds no occurrence is kept as it is. */
  lemma {:induction false} RemoveAllKeeps(s: string, pat: string, j: nat)
    requires pat != [] && j <= |s|
    requires forall k :: 0 <= k < j ==> !OccursAt(s, pat, k)
    ensures RemoveAll(s, pat) == s[..j] + RemoveAll(s[j..], pat)
    decreases j, 1
  {
    if j == 0 {
      assert s[..0] + s[0..] == s;
    } else if |s| < |pat| {
      assert s[..j] + s[j..] == s;
    } else {
      KeepFirst(s, pat, j);
    }
  }

  /** The step of `RemoveAllKeeps`: the first character is kept, and the
      rest of the stretch is kept in the tail. */
  lemma {:induction false} KeepFirst(s: string, pat: string, j: nat)
    requires pat != [] && 0 < j <= |s| && |pat| <= |s|
    requires forall k :: 0 <= k < j ==> !OccursAt(s, pat, k)
    ensures RemoveAll(s, pat) == s[..j] + RemoveAll(s[j..], pat)
    decreases j, 0
  {
    assert !OccursAt(s, pat, 0);
    SkipFirst(s, pat);
    NoneInTail(s, pat, j);
    RemoveAllKeeps(s[1..], pat, j - 1);
    var rest := RemoveAll(s[j..], pat);
    assert s[1..][j - 1..] == s[j..];
    ConsPrefix(s, j, rest);
  }

  /** The first character and the next `j - 1` make the first `j`. */
  lemma ConsPrefix(s: string, j: nat, rest: string)
    requires 0 < j <= |s|
    ensures [s[0]] + (s[1..][..j - 1] + rest) == s[..j] + rest
  {
    assert [s[0]] + s[1..][..j - 1] == s[..j];
  }

  /** Without an occurrence at the front, the first character is kept. */
  lemma SkipFirst(s: string, pat: string)
    requires pat != [] && |pat| <= |s| && !OccursAt(s, pat, 0)
    ensures RemoveAll(s, pat) == [s[0]] + RemoveAll(s[1..], pat)
  {
  }

  /** A stretch without occurrences stays so, one place shorter, in the tail. */
  lemma NoneInTail(s: string, pat: string, j: nat)
    requires 0 < j <= |s|
    requires forall k :: 0 <= k < j ==> !OccursAt(s, pat, k)
    ensures forall k :: 0 <= k < j - 1 ==> !OccursAt(s[1..], pat, k)
  {
    forall k | 0 <= k < j - 1 ensures !OccursAt(s[1..], pat, k) {
      OccursShift(s, pat, k);
    }
  }

  /** An occurrence in the tail is an occurrence one place later in the whole. */
  lemma OccursShift(s: string, pat: string, k: nat)
    requires s != []
    ensures OccursAt(s[1..], pat, k) == OccursAt(s, pat, k + 1)
  {
    if k + 1 + |pat| <= |s| {
      assert s[1..][k..k + |pat|] == s[k + 1..k + 1 + |pat|];
    }
  }

  /** A text without the pattern comes back unchanged. */
  lemma {:induction false} RemoveAllAbsent(s: string, pat: string)
    requires pat != []
    requires forall k :: !OccursAt(s, pat, k)
    ensures RemoveAll(s, pat) == s
    decreases |s|
  {
    if |s| >= |pat| {
      assert !OccursAt(s, pat, 0);
      forall k: nat ensures !OccursAt(s[1..], pat, k) {
        assert !OccursAt(s, pat, k + 1);
      }
      RemoveAllAbsent(s[1..], pat);
    }
  }

  /** `s.split(sep)[0]`: the text before the first `sep`. */
  function BeforeFirst(s: string, sep: char): (r: string)
    ensures sep !in r
    ensures forall c :: c in r ==> c in s
    ensures |r| <= |s| && r == s[..|r|]
    ensures |r| < |s| ==> s[|r|] == sep
  {
    if s == [] || s[0] == sep then [] else [s[0]] + BeforeFirst(s[1..], sep)
  }

  /** The expression an answer states: on its last non-blank line, lower-cased,
      with every "answer: " removed, whatever stands before the first '='. */
  function Expression(answer: string): (e: string)
    ensures '\n' !in e && '=' !in e
    ensures forall c :: c in e ==> !('A' <= c <= 'Z')
  {
    var line := LastLine(Strip(answer));
    var lowered := Lower(line);
    var kept := RemoveAll(lowered, "answer: ");
    BeforeFirst(kept, '=')
  }

  lemma StripUnpadded(s: string)
    requires s == [] || (!IsSpace(s[0]) && !IsSpace(s[|s| - 1]))
    ensures Strip(s) == s
  {
    assert s == [] || !IsSpace(s[0]);
    assert s == [] || !IsSpace(s[|s| - 1]);
  }

  lemma LastLineSingle(s: string)
    requires '\n' !in s
    ensures LastLine(s) == s
  {
    assert forall i :: 0 <= i < |s| ==> s[i] != '\n';
  }

  lemma LowerLowercase(s: string)
    requires forall c :: c in s ==> !('A' <= c <= 'Z')
    ensures Lower(s) == s
  {
    forall i | 0 <= i < |s| ensures Lower(s)[i] == s[i] {
      assert s[i] in s;
    }
  }

  lemma BeforeFirstAbsent(s: string, sep: char)
    requires sep !in s
    ensures BeforeFirst(s, sep) == s
  {
    assert forall i :: 0 <= i < |s| ==> s[i] != sep;
  }

  /** An answer that is already a bare expression is taken as it stands:
      one line, no surrounding whitespace, no upper case, no "answer: " and
      no '='. */
  lemma PlainExpression(s: string)
    requires s == [] || (!IsSpace(s[0]) && !IsSpace(s[|s| - 1]))
    requires '\n' !in s && '=' !in s
    requires forall c :: c in s ==> !('A' <= c <= 'Z')
    requires forall k :: !OccursAt(s, "answer: ", k)
    ensures Expression(s) == s
  {
    StripUnpadded(s);
    LastLineSingle(s);
    LowerLowercase(s);
    RemoveAllAbsent(s, "answer: ");
    BeforeFirstAbsent(s, '=');
  }

  /** The usual form of an answer: some working, then a last line
      "Answer: <expression>=<result>".  The label is dropped whatever its
      case, and the expression is kept character for character up to the '='. */
  lemma LabelledAnswer(work: string, x: string, result: string)
    requires work != [] && !IsSpace(work[0])
    requires result == [] || !IsSpace(result[|result| - 1])
    requires '\n' !in x && '=' !in x && '\n' !in result
    requires forall c :: c in x ==> !('A' <= c <= 'Z')
    requires forall k :: !OccursAt(x, "answer: ", k)
    ensures Expression(work + "\n" + "Answer: " + x + "=" + result) == x
  {
    var line := "Answer: " + x + "=" + result;
    var answer := work + "\n" + "Answer: " + x + "=" + result;
    assert answer == work + "\n" + line;
    assert line[|line| - 1] == if result == [] then '=' else result[|result| - 1];
    assert '\n' !in "Answer: " + x + "=";
    LabelledLastLine(work, line);
    LoweredLine(x, result);
    var rest := Lower(result);
    var lowered := "answer: " + (x + "=" + rest);
    assert Lower(LastLine(Strip(answer))) == lowered;
    DropFirst(lowered, "answer: ");
    assert lowered[|"answer: "|..] == x + "=" + rest;
    LabelFreePrefix(x, rest);
    var kept := RemoveAll(rest, "answer: ");
    assert RemoveAll(lowered, "answer: ") == x + "=" + kept;
    BeforeFirstAt(x, '=', kept);
    assert Expression(answer) == BeforeFirst(x + "=" + kept, '=');
  }

  /** A last line with no surrounding whitespace is the one the expression
      is cut from. */
  lemma LabelledLastLine(work: string, line: string)
    requires work != [] && !IsSpace(work[0])
    requires line != [] && !IsSpace(line[|line| - 1]) && '\n' !in line
    ensures LastLine(Strip(work + "\n" + line)) == line
  {
    var answer := work + "\n" + line;
    assert answer[0] == work[0];
    assert answer[|answer| - 1] == line[|line| - 1];
    StripUnpadded(answer);
    LastLineAfter(work, line);
  }

  /** Lower-casing the labelled line lower-cases only the label and the result. */
  lemma LoweredLine(x: string, result: string)
    requires forall c :: c in x ==> !('A' <= c <= 'Z')
    ensures Lower("Answer: " + x + "=" + result) == "answer: " + (x + "=" + Lower(result))
  {
    LowerAppend("Answer: " + x, "=" + result);
    LowerAppend("Answer: ", x);
    LowerAppend("=", result);
    LowerLowercase(x);
    assert Lower("Answer: ") == "answer: ";
    assert Lower("=") == "=";
  }

  /** The last line of a text that ends "\n" + `line` is `line`. */
  lemma {:induction false} LastLineAfter(pre: string, line: string)
    requires '\n' !in line
    ensures LastLine(pre + "\n" + line) == line
    decreases |line|
  {
    var s := pre + "\n" + line;
    if line == [] {
      assert s[|s| - 1] == '\n';
    } else {
      var init := line[..|line| - 1];
      assert s[..|s| - 1] == pre + "\n" + init;
      assert s[|s| - 1] == line[|line| - 1] && line[|line| - 1] in line;
      assert forall c :: c in init ==> c in line;
      LastLineAfter(pre, init);
      assert init + [line[|line| - 1]] == line;
    }
  }

  lemma LowerAppend(a: string, b: string)
    ensures Lower(a + b) == Lower(a) + Lower(b)
  {
    assert forall i :: 0 <= i < |a + b| ==> Lower(a + b)[i] == (Lower(a) + Lower(b))[i];
  }

  /** An expression without the label, followed by '=', is kept whole: no
      label can start in it, since the label holds no '='. */
  lemma LabelFreePrefix(x: string, rest: string)
    requires '=' !in x
    requires forall k :: !OccursAt(x, "answer: ", k)
    ensures RemoveAll(x + "=" + rest, "answer: ") == x + "=" + RemoveAll(rest, "answer: ")
  {
    var y := x + "=" + rest;
    var pat := "answer: ";
    var n := |x| + 1;
    forall k | 0 <= k < n ensures !OccursAt(y, pat, k) {
      if k + |pat| <= |x| {
        assert y[k..k + |pat|] == x[k..k + |pat|];
        assert !OccursAt(x, pat, k);
      } else if k + |pat| <= |y| {
        assert y[k..k + |pat|][|x| - k] == '=';
        assert pat[|x| - k] != '=';
      }
    }
    RemoveAllKeeps(y, pat, n);
    assert y[..n] == x + "=" && y[n..] == rest;
  }

  /** Cutting at the first separator keeps what stands before it. */
  lemma BeforeFirstAt(x: string, sep: char, rest: string)
    requires sep !in x
    ensures BeforeFirst(x + [sep] + rest, sep) == x
  {
    var s := x + [sep] + rest;
    var r := BeforeFirst(s, sep);
    assert s[|x|] == sep;
    assert s[..|x|] == x;
  }

  // ---------------------------------------------------------------------
  // The numbers an expression uses

  predicate IsDigit(c: char)
  {
    '0' <= c <= '9'
  }

  /** The length of the run of digits that `s` starts with. */
  function LeadingDigits(s: string): (n: nat)
    ensures n <= |s|
    ensures forall i :: 0 <= i < n ==> IsDigit(s[i])
    ensures n < |s| ==> !IsDigit(s[n])
  {
    if s != [] && IsDigit(s[0]) then 1 + LeadingDigits(s[1..]) else 0
  }

  /** `re.findall(r'\d+', s)`: the maximal runs of digits, left to right, each
      kept as text (so "04" and "4" are different numbers). */
  function DigitRuns(s: string): (runs: seq<string>)
    ensures forall k :: 0 <= k < |runs| ==> runs[k] != []
    ensures forall k, c :: 0 <= k < |runs| && c in runs[k] ==> IsDigit(c)
    decreases |s|
  {
    if s == [] then []
    else if !IsDigit(s[0]) then DigitRuns(s[1..])
    else
      var n := LeadingDigits(s);
      [s[..n]] + DigitRuns(s[n..])
  }

  /** A character that is not a digit separates the numbers on either side. */
  lemma {:induction false} DigitRunsSplit(a: string, c: char, b: string)
    requires !IsDigit(c)
    ensures DigitRuns(a + [c] + b) == DigitRuns(a) + DigitRuns(b)
    decreases |a|
  {
    var s := a + [c] + b;
    if a == [] {
      assert s == [c] + b;
      assert s[1..] == b;
    } else if !IsDigit(a[0]) {
      assert s[1..] == a[1..] + [c] + b;
      DigitRunsSplit(a[1..], c, b);
    } else {
      var n := LeadingDigits(a);
      LeadingDigitsExtend(a, [c] + b);
      assert s == a + ([c] + b);
      assert s[..n] == a[..n];
      assert s[n..] == a[n..] + [c] + b;
      DigitRunsSplit(a[n..], c, b);
    }
  }

  /** A digit run that ends before a non-digit ends there whatever follows. */
  lemma LeadingDigitsExtend(a: string, rest: string)
    requires rest != [] && !IsDigit(rest[0])
    ensures LeadingDigits(a + rest) == LeadingDigits(a)
  {
    assert forall i :: 0 <= i < |a| ==> (a + rest)[i] == a[i];
    assert (a + rest)[|a|] == rest[0];
  }

  // ---------------------------------------------------------------------
  // Sorting number strings the way Python orders str values

  /** Python's `a <= b` on str: code point by code point, a proper prefix first. */
  predicate StrLe(a: string, b: string)
    decreases |a|
  {
    a == [] || (b != [] && (a[0] < b[0] || (a[0] == b[0] && StrLe(a[1..], b[1..]))))
  }

  lemma {:induction false} StrLeReflexive(a: string)
    ensures StrLe(a, a)
    decreases |a|
  {
    if a != [] {
      StrLeReflexive(a[1..]);
    }
  }

  lemma {:induction false} StrLeTotal(a: string, b: string)
    ensures StrLe(a, b) || StrLe(b, a)
    decreases |a|
  {
    if a != [] && b != [] && a[0] == b[0] {
      StrLeTotal(a[1..], b[1..]);
    }
  }

  lemma {:induction false} StrLeAntisymmetric(a: string, b: string)
    requires StrLe(a, b) && StrLe(b, a)
    ensures a == b
    decreases |a|
  {
    if a != [] {
      StrLeAntisymmetric(a[1..], b[1..]);
      assert a == [a[0]] + a[1..];
      assert b == [b[0]] + b[1..];
    }
  }

  lemma {:induction false} StrLeTransitive(a: string, b: string, c: string)
    requires StrLe(a, b) && StrLe(b, c)
    ensures StrLe(a, c)
    decreases |a|
  {
    if a != [] && a[0] == b[0] && b[0] == c[0] {
      StrLeTransitive(a[1..], b[1..], c[1..]);
    }
  }

  predicate SortedStrings(s: seq<string>)
  {
    forall i, j :: 0 <= i < j < |s| ==> StrLe(s[i], s[j])
  }

  /** `x` put into the sorted `s` before the first element it does not exceed. */
  function Insert(x: string, s: seq<string>): (r: seq<string>)
    requires SortedStrings(s)
    ensures SortedStrings(r)
    ensures multiset(r) == multiset(s) + multiset{x}
  {
    if s == [] then [x]
    else if StrLe(x, s[0]) then
      forall j | 0 <= j < |s| ensures StrLe(x, s[j]) {
        if j > 0 { StrLeTransitive(x, s[0], s[j]); }
      }
      [x] + s
    else
      var rest := Insert(x, s[1..]);
      StrLeTotal(x, s[0]);
      forall j | 0 <= j < |rest| ensures StrLe(s[0], rest[j]) {
        assert rest[j] in multiset(rest);
        if rest[j] != x {
          assert rest[j] in multiset(s[1..]);
          var i :| 0 <= i < |s[1..]| && s[1..][i] == rest[j];
          assert s[i + 1] == rest[j];
        }
      }
      assert s == [s[0]] + s[1..];
      [s[0]] + rest
  }

  /** `sorted(xs)` on a list of str. */
  function Sort(xs: seq<string>): (r: seq<string>)
    ensures SortedStrings(r)
    ensures multiset(r) == multiset(xs)
  {
    if xs == [] then []
    else
      assert xs == [xs[0]] + xs[1..];
      Insert(xs[0], Sort(xs[1..]))
  }

  /** The head of a sorted list does not exceed any of its elements. */
  lemma SortedHeadIsLeast(a: seq<string>, x: string)
    requires SortedStrings(a) && x in multiset(a)
    ensures a != [] && StrLe(a[0], x)
  {
    var i :| 0 <= i < |a| && a[i] == x;
    if i == 0 {
      StrLeReflexive(x);
    }
  }

  lemma MultisetOfTail(a: seq<string>)
    requires a != []
    ensures multiset(a[1..]) == multiset(a) - multiset{a[0]}
  {
    assert a == [a[0]] + a[1..];
  }

  /** Two non-empty sorted lists with the same elements start alike. */
  lemma SortedSameHead(a: seq<string>, b: seq<string>)
    requires SortedStrings(a) && SortedStrings(b)
    requires a != [] && multiset(a) == multiset(b)
    ensures b != [] && a[0] == b[0]
  {
    assert a[0] in multiset(a);
    SortedHeadIsLeast(b, a[0]);
    SortedHeadIsLeast(a, b[0]);
    StrLeAntisymmetric(a[0], b[0]);
  }

  /** Two sorted lists with the same elements, counted with multiplicity, are equal. */
  lemma {:induction false} SortedUnique(a: seq<string>, b: seq<string>)
    requires SortedStrings(a) && SortedStrings(b)
    requires multiset(a) == multiset(b)
    ensures a == b
    decreases |a|
  {
    if a != [] {
      SortedSameHead(a, b);
      MultisetOfTail(a);
      MultisetOfTail(b);
      SortedUnique(a[1..], b[1..]);
      assert a == [a[0]] + a[1..];
      assert b == [b[0]] + b[1..];
    } else {
      assert |b| == |multiset(b)| == 0;
    }
  }

  /** Comparing sorted lists compares the elements with their multiplicities
      and nothing else: the order in which the numbers occur does not matter. */
  lemma SortedEqualIffSameElements(xs: seq<string>, ys: seq<string>)
    ensures Sort(xs) == Sort(ys) <==> multiset(xs) == multiset(ys)
  {
    if multiset(xs) == multiset(ys) {
      SortedUnique(Sort(xs), Sort(ys));
    }
  }

  // ---------------------------------------------------------------------
  // Validation

  /** What the algebra system makes of an expression: it simplifies to 24, to
      something else, or it raises. */
  datatype Verdict = EqualsTwentyFour | NotTwentyFour | Raises

  /** Task.validate, with the algebra system as the oracle `evaluate`. */
  function Validate(task: Task, answer: string, evaluate: string -> Verdict): bool
  {
    var expression := Expression(answer);
    if Sort(DigitRuns(expression)) != Sort(DigitRuns(task.input)) then false
    else evaluate(expression) == EqualsTwentyFour
  }

  /** An answer is accepted exactly when its expression uses the puzzle's
      numbers, each as often as the puzzle does, and the algebra system finds
      it equal to 24; a raising evaluation rejects it. */
  lemma ValidateMeaning(task: Task, answer: string, evaluate: string -> Verdict)
    ensures Validate(task, answer, evaluate) <==>
      && multiset(DigitRuns(Expression(answer))) == multiset(DigitRuns(task.input))
      && evaluate(Expression(answer)) == EqualsTwentyFour
  {
    SortedEqualIffSameElements(DigitRuns(Expression(answer)), DigitRuns(task.input));
  }

  /** When the numbers differ the algebra system is never asked: every
      evaluator gives the same rejection. */
  lemma NumberMismatchRejects(task: Task, answer: string, e1: string -> Verdict, e2: string -> Verdict)
    requires multiset(DigitRuns(Expression(answer))) != multiset(DigitRuns(task.input))
    ensures !Validate(task, answer, e1) && !Validate(task, answer, e2)
  {
    ValidateMeaning(task, answer, e1);
    ValidateMeaning(task, answer, e2);
  }

  /** A text that is one number is its only digit run. */
  lemma DigitRunsWholeNumber(s: string)
    requires s != [] && forall i :: 0 <= i < |s| ==> IsDigit(s[i])
    ensures DigitRuns(s) == [s]
  {
    assert LeadingDigits(s) == |s|;
    assert s[..|s|] == s && s[|s|..] == [];
  }

  /** An answer that is one bare number states that number and nothing else. */
  lemma WholeNumberAnswer(s: string)
    requires s != [] && forall i :: 0 <= i < |s| ==> IsDigit(s[i])
    ensures Expression(s) == s && DigitRuns(Expression(s)) == [s]
  {
    assert !IsSpace(s[0]) && !IsSpace(s[|s| - 1]);
    assert '\n' !in s && '=' !in s;
    assert forall c :: c in s ==> !('A' <= c <= 'Z');
    forall k: nat ensures !OccursAt(s, "answer: ", k) {
      if k + 8 <= |s| {
        assert s[k..k + 8][0] == s[k];
      }
    }
    PlainExpression(s);
    DigitRunsWholeNumber(s);
  }

  /** Numbers are compared as written: a zero-padded copy of the puzzle's
      number, "04" for "4", is a different number, so the answer is rejected
      whatever the evaluator says. */
  lemma ZeroPaddedNumberRejected(n: string, evaluate: string -> Verdict)
    requires n != [] && forall i :: 0 <= i < |n| ==> IsDigit(n[i])
    ensures !Validate(Task(n), "0" + n, evaluate)
  {
    var answer := "0" + n;
    assert forall i :: 0 <= i < |answer| ==> IsDigit(answer[i]);
    WholeNumberAnswer(answer);
    DigitRunsWholeNumber(n);
    assert multiset([answer]) != multiset([n]) by {
      assert answer != n by { assert |answer| != |n|; }
      assert multiset([n])[answer] == 0;
    }
    NumberMismatchRejects(Task(n), answer, evaluate, evaluate);
  }
}
