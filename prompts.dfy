/** Prompt handling of ollama_stress_test.py: reading the prompt file
    (`load_prompts`), choosing the next prompt in a worker (`worker`), and
    the shortened form of a prompt that a request record stores. */
module Prompts {
  import opened Results
  import Config

  // ---------------------------------------------------------------------
  // str.strip()
  // ---------------------------------------------------------------------

  /** The characters for which Python's `str.isspace` holds: the ones that
      `str.strip()` without arguments removes from both ends. */
  predicate IsWhitespace(c: char) {
    || c == ' '
    || ('\t' <= c <= '\r')
    || ('\U{1C}' <= c <= '\U{1F}')
    || c == '\U{85}'
    || c == '\U{A0}'
    || c == '\U{1680}'
    || ('\U{2000}' <= c <= '\U{200A}')
    || c == '\U{2028}'
    || c == '\U{2029}'
    || c == '\U{202F}'
    || c == '\U{205F}'
    || c == '\U{3000}'
  }

  /** A string made of whitespace only (the empty string included). */
  predicate Blank(s: string) {
    forall k :: 0 <= k < |s| ==> IsWhitespace(s[k])
  }

  /** Removes leading whitespace: the result is the longest suffix of `s`
      that does not start with whitespace, and what it drops is blank. */
  function TrimStart(s: string): (r: string)
    ensures |r| <= |s|
  {
    if s != [] && IsWhitespace(s[0]) then TrimStart(s[1..]) else s
  }

  lemma {:induction false} TrimStartSpec(s: string)
    ensures var r := TrimStart(s);
      && |r| <= |s| && r == s[|s| - |r|..]
      && Blank(s[..|s| - |r|])
      && (r != [] ==> !IsWhitespace(r[0]))
  {
    if s != [] && IsWhitespace(s[0]) {
      TrimStartSpec(s[1..]);
      var r := TrimStart(s);
      forall k | 0 <= k < |s| - |r| ensures IsWhitespace(s[k]) {
        if k > 0 {
          assert s[1..][..|s| - 1 - |r|][k - 1] == s[k];
        }
      }
    }
  }

  /** Removes trailing whitespace: the result is the longest prefix of `s`
      that does not end with whitespace, and what it drops is blank. */
  function TrimEnd(s: string): (r: string)
    ensures |r| <= |s|
  {
    if s != [] && IsWhitespace(s[|s| - 1]) then TrimEnd(s[..|s| - 1]) else s
  }

  lemma {:induction false} TrimEndSpec(s: string)
    ensures var r := TrimEnd(s);
      && |r| <= |s| && r == s[..|r|]
      && Blank(s[|r|..])
      && (r != [] ==> !IsWhitespace(r[|r| - 1]))
  {
    if s != [] && IsWhitespace(s[|s| - 1]) {
      var u := s[..|s| - 1];
      TrimEndSpec(u);
      var r := TrimEnd(s);
      assert r == u[..|r|];
      forall k | |r| <= k < |s| ensures IsWhitespace(s[k]) {
        if k < |s| - 1 {
          assert u[|r|..][k - |r|] == s[k];
        }
      }
    }
  }

  /** Python's `s.strip()`. */
  function Strip(s: string): (r: string)
    ensures |r| <= |s|
  {
    TrimEnd(TrimStart(s))
  }

  /** `Strip(s)` is the infix of `s` left after dropping blank ends, and it
      neither starts nor ends with whitespace. */
  lemma StripIsInfix(s: string)
    ensures var i := |s| - |TrimStart(s)|;
      && i + |Strip(s)| <= |s|
      && Strip(s) == s[i..i + |Strip(s)|]
      && Blank(s[..i])
      && Blank(s[i + |Strip(s)|..])
    ensures Strip(s) != [] ==> !IsWhitespace(Strip(s)[0]) && !IsWhitespace(Strip(s)[|Strip(s)| - 1])
  {
    var t := TrimStart(s);
    var i := |s| - |t|;
    var r := TrimEnd(t);
    TrimStartSpec(s);
    TrimEndSpec(t);
    assert t == s[i..];
    assert r == t[..|r|];
    assert t[|r|..] == s[i + |r|..];
  }

  /** A string strips to nothing exactly when it is blank. */
  lemma StripEmptyIffBlank(s: string)
    ensures Strip(s) == [] <==> Blank(s)
  {
    var t := TrimStart(s);
    var i := |s| - |t|;
    TrimStartSpec(s);
    TrimEndSpec(t);
    if Strip(s) == [] {
      assert Blank(t[0..]) by { assert t[0..] == t; }
      assert t == [];
      forall k | 0 <= k < |s| ensures IsWhitespace(s[k]) {
        assert s[..i][k] == s[k];
      }
    } else {
      StripIsInfix(s);
      assert !IsWhitespace(s[i]);
    }
  }

  /** Stripping twice is stripping once. */
  lemma StripIdempotent(s: string)
    ensures Strip(Strip(s)) == Strip(s)
  {
    var r := Strip(s);
    StripIsInfix(s);
    assert TrimStart(r) == r;
    assert TrimEnd(r) == r;
  }

  // ---------------------------------------------------------------------
  // f.readlines()
  // ---------------------------------------------------------------------

  /** The length of the first line of `t`, its line feed included. */
  function FirstLineLength(t: string): (n: nat)
    requires t != []
    ensures 0 < n <= |t|
    ensures forall k :: 0 <= k < n - 1 ==> t[k] != '\n'
    ensures n < |t| ==> t[n - 1] == '\n'
  {
    if t[0] == '\n' || |t| == 1 then 1 else 1 + FirstLineLength(t[1..])
  }

  /** Python's `f.readlines()` on a file read as text: the lines of `t`, in
      order, each keeping its terminating line feed (the last line may lack one). */
  function ReadLines(t: string): (lines: seq<string>)
    ensures lines == [] <==> t == []
    ensures |lines| <= |t|
    decreases |t|
  {
    if t == [] then []
    else
      var n := FirstLineLength(t);
      [t[..n]] + ReadLines(t[n..])
  }

  /** The lines joined back together. */
  function Concat(lines: seq<string>): string {
    if lines == [] then [] else lines[0] + Concat(lines[1..])
  }

  /** Reading lines loses nothing: joining them gives back the text. */
  lemma {:induction false} ReadLinesRoundTrip(t: string)
    ensures Concat(ReadLines(t)) == t
    decreases |t|
  {
    if t != [] {
      var n := FirstLineLength(t);
      ReadLinesRoundTrip(t[n..]);
      assert ReadLines(t)[1..] == ReadLines(t[n..]);
      assert t[..n] + t[n..] == t;
    }
  }

  /** Every line is non-empty, holds a line feed only as its last character,
      and every line but the last ends with one. */
  lemma {:induction false} ReadLinesShape(t: string)
    ensures var lines := ReadLines(t);
      && (forall i :: 0 <= i < |lines| ==> lines[i] != [] && '\n' !in lines[i][..|lines[i]| - 1])
      && (forall i :: 0 <= i < |lines| - 1 ==> lines[i][|lines[i]| - 1] == '\n')
    decreases |t|
  {
    if t != [] {
      var n := FirstLineLength(t);
      var lines := ReadLines(t);
      ReadLinesShape(t[n..]);
      assert lines[1..] == ReadLines(t[n..]);
      assert t[..n][..n - 1] == t[..n - 1];
      if |lines| > 1 {
        assert n < |t|;
      }
      forall i | 0 <= i < |lines| ensures lines[i] != [] && '\n' !in lines[i][..|lines[i]| - 1] {
        if i > 0 {
          assert lines[i] == lines[1..][i - 1];
        }
      }
      forall i | 0 <= i < |lines| - 1 ensures lines[i][|lines[i]| - 1] == '\n' {
        if i > 0 {
          assert lines[i] == lines[1..][i - 1];
        }
      }
    }
  }

  /** Text is blank exactly when each of its lines is. */
  lemma {:induction false} ConcatBlank(lines: seq<string>)
    ensures Blank(Concat(lines)) <==> forall i :: 0 <= i < |lines| ==> Blank(lines[i])
  {
    if lines != [] {
      ConcatBlank(lines[1..]);
      var rest := Concat(lines[1..]);
      assert Concat(lines) == lines[0] + rest;
      if Blank(Concat(lines)) {
        forall k | 0 <= k < |lines[0]| ensures IsWhitespace(lines[0][k]) {
          assert Concat(lines)[k] == lines[0][k];
        }
        forall k | 0 <= k < |rest| ensures IsWhitespace(rest[k]) {
          assert Concat(lines)[|lines[0]| + k] == rest[k];
        }
        forall i | 0 <= i < |lines| ensures Blank(lines[i]) {
          if i > 0 {
            assert lines[i] == lines[1..][i - 1];
          }
        }
      }
      if forall i :: 0 <= i < |lines| ==> Blank(lines[i]) {
        assert Blank(lines[0]);
        forall i | 0 <= i < |lines[1..]| ensures Blank(lines[1..][i]) {
          assert lines[1..][i] == lines[i + 1];
        }
      }
    }
  }

  // ---------------------------------------------------------------------
  // load_prompts
  // ---------------------------------------------------------------------

  /** The list comprehension of `load_prompts`: the stripped lines, in
      order, with the ones that strip to nothing left out. */
  function KeepNonBlank(lines: seq<string>): (prompts: seq<string>)
    ensures |prompts| <= |lines|
    ensures forall i :: 0 <= i < |prompts| ==> prompts[i] != [] && Strip(prompts[i]) == prompts[i]
  {
    if lines == [] then []
    else if Strip(lines[0]) != [] then
      StripIdempotent(lines[0]);
      [Strip(lines[0])] + KeepNonBlank(lines[1..])
    else KeepNonBlank(lines[1..])
  }

  /** Every kept prompt is the stripped form of some line. */
  lemma {:induction false} KeepNonBlankSources(lines: seq<string>)
    ensures forall p :: p in KeepNonBlank(lines) ==> exists i :: 0 <= i < |lines| && Strip(lines[i]) == p
  {
    if lines != [] {
      KeepNonBlankSources(lines[1..]);
      forall p | p in KeepNonBlank(lines) ensures exists i :: 0 <= i < |lines| && Strip(lines[i]) == p {
        if p == Strip(lines[0]) {
          assert Strip(lines[0]) == p;
        } else {
          assert p in KeepNonBlank(lines[1..]);
          var j :| 0 <= j < |lines[1..]| && Strip(lines[1..][j]) == p;
          assert Strip(lines[j + 1]) == p;
        }
      }
    }
  }

  /** The filter keeps file order: it distributes over concatenation. */
  lemma {:induction false} KeepNonBlankAppend(a: seq<string>, b: seq<string>)
    ensures KeepNonBlank(a + b) == KeepNonBlank(a) + KeepNonBlank(b)
  {
    if a != [] {
      KeepNonBlankAppend(a[1..], b);
      assert (a + b)[1..] == a[1..] + b;
    } else {
      assert a + b == b;
    }
  }

  /** Filtering an already filtered list changes nothing. */
  lemma {:induction false} KeepNonBlankIdempotent(lines: seq<string>)
    ensures KeepNonBlank(KeepNonBlank(lines)) == KeepNonBlank(lines)
  {
    if lines != [] {
      KeepNonBlankIdempotent(lines[1..]);
      var rest := KeepNonBlank(lines[1..]);
      if Strip(lines[0]) != [] {
        var p := Strip(lines[0]);
        StripIdempotent(lines[0]);
        assert ([p] + rest)[1..] == rest;
      }
    }
  }

  /** Nothing is kept exactly when every line is blank. */
  lemma {:induction false} KeepNonBlankEmpty(lines: seq<string>)
    ensures KeepNonBlank(lines) == [] <==> forall i :: 0 <= i < |lines| ==> Blank(lines[i])
  {
    if lines != [] {
      KeepNonBlankEmpty(lines[1..]);
      StripEmptyIffBlank(lines[0]);
      if forall i :: 0 <= i < |lines[1..]| ==> Blank(lines[1..][i]) {
        if Blank(lines[0]) {
          forall i | 0 <= i < |lines| ensures Blank(lines[i]) {
            if i > 0 {
              assert lines[i] == lines[1..][i - 1];
            }
          }
        }
      } else {
        var j :| 0 <= j < |lines[1..]| && !Blank(lines[1..][j]);
        assert !Blank(lines[j + 1]);
      }
    }
  }

  /** The five prompts used when the prompt file does not exist. */
  const DefaultPrompts: seq<string> := [
    "解释量子计算的基本原理",
    "用Python实现快速排序算法",
    "写一篇关于人工智能未来发展的短文",
    "如何优化深度学习模型的训练速度?",
    "比较RESTful API和GraphQL的优缺点"
  ]

  /** What opening the prompt file yields: no such file, an error that the
      source does not catch (a permission or decoding error), or its text. */
  datatype PromptFile = Missing | Unreadable(reason: string) | Contents(text: string)

  /** `load_prompts`: the non-blank stripped lines of the file; the default
      prompts when the file is missing; any other error propagates. */
  function LoadPrompts(f: PromptFile): (r: Result<seq<string>, string>)
    ensures r.Failure? <==> f.Unreadable?
  {
    match f
    case Missing => Success(DefaultPrompts)
    case Unreadable(reason) => Failure(reason)
    case Contents(text) => Success(KeepNonBlank(ReadLines(text)))
  }

  /** A missing file yields exactly the five default prompts. */
  lemma LoadPromptsMissing()
    ensures LoadPrompts(Missing).Success?
    ensures |LoadPrompts(Missing).value| == 5
    ensures forall i :: 0 <= i < 5 ==> LoadPrompts(Missing).value[i] == DefaultPrompts[i]
  {
  }

  /** Every loaded prompt is non-empty and has no whitespace at either end. */
  lemma LoadedPromptsClean(f: PromptFile)
    requires LoadPrompts(f).Success?
    ensures forall i :: 0 <= i < |LoadPrompts(f).value| ==>
      LoadPrompts(f).value[i] != [] && Strip(LoadPrompts(f).value[i]) == LoadPrompts(f).value[i]
  {
    if f.Missing? {
      forall i | 0 <= i < |DefaultPrompts| ensures Strip(DefaultPrompts[i]) == DefaultPrompts[i] {
        var p := DefaultPrompts[i];
        assert !IsWhitespace(p[0]) && !IsWhitespace(p[|p| - 1]);
        assert TrimStart(p) == p;
      }
    }
  }

  /** The loaded prompt list is empty exactly when the file exists and holds
      nothing but whitespace; a worker then has no prompt to cycle through. */
  lemma LoadPromptsEmptyIff(f: PromptFile)
    ensures LoadPrompts(f) == Success([]) <==> f.Contents? && Blank(f.text)
  {
    if f.Contents? {
      var lines := ReadLines(f.text);
      ReadLinesRoundTrip(f.text);
      ConcatBlank(lines);
      KeepNonBlankEmpty(lines);
    }
  }

  // ---------------------------------------------------------------------
  // Prompt choice and the stored excerpt
  // ---------------------------------------------------------------------

  /** The prompt of a worker's k-th request (`prompts[prompt_index % len(prompts)]`). */
  function PromptAt(prompts: seq<string>, k: nat): (p: string)
    requires prompts != []
    ensures p in prompts
  {
    prompts[k % |prompts|]
  }

  /** The choice repeats with the length of the prompt list. */
  lemma PromptAtPeriodic(prompts: seq<string>, k: nat)
    requires prompts != []
    ensures PromptAt(prompts, k + |prompts|) == PromptAt(prompts, k)
  {
    var n := |prompts|;
    ModOfMultiple(k + n, n, k / n + 1, k % n);
  }

  /** Division by a positive divisor has a unique remainder. */
  lemma ModOfMultiple(a: nat, n: nat, q: nat, r: nat)
    requires n > 0 && r < n && a == q * n + r
    ensures a % n == r
  {
    var q', r' := a / n, a % n;
    assert a == q' * n + r';
    if q' < q {
      MulAtLeast(q - q', n);
    } else if q < q' {
      MulAtLeast(q' - q, n);
    }
  }

  lemma MulAtLeast(d: nat, n: nat)
    requires d >= 1
    ensures d * n >= n
  {
  }

  /** Any |prompts| consecutive requests of a worker use every prompt, the
      i-th one at the request given here. */
  lemma CycleCoversAll(prompts: seq<string>, start: nat, i: nat)
    requires prompts != [] && i < |prompts|
    ensures var k := start + (i + |prompts| - start % |prompts|) % |prompts|;
      start <= k < start + |prompts| && PromptAt(prompts, k) == prompts[i]
  {
    var n := |prompts|;
    var r0 := start % n;
    var q := start / n;
    var d := (i + n - r0) % n;
    assert start == q * n + r0;
    if r0 <= i {
      ModOfMultiple(i + n - r0, n, 1, i - r0);
      ModOfMultiple(start + d, n, q, i);
    } else {
      ModOfMultiple(i + n - r0, n, 0, i + n - r0);
      ModOfMultiple(start + d, n, q + 1, i);
    }
  }

  /** `prompt[:50] + "..." if len(prompt) > 50 else prompt`. */
  function Excerpt(p: string): (e: string)
    ensures |p| <= Config.ExcerptLength ==> e == p
    ensures |e| <= Config.ExcerptLength + 3
  {
    if |p| > Config.ExcerptLength then p[..Config.ExcerptLength] + "..." else p
  }

  /** A prompt of at most 50 characters is stored unchanged; a longer one
      becomes its first 50 characters and "...", 53 characters in all. */
  lemma ExcerptShape(p: string)
    ensures |p| <= 50 ==> Excerpt(p) == p
    ensures |p| > 50 ==> |Excerpt(p)| == 53 && Excerpt(p)[..50] == p[..50] && Excerpt(p)[50..] == "..."
    ensures |Excerpt(p)| <= 53
  {
  }

  /** Shortening a stored excerpt again changes nothing. */
  lemma ExcerptIdempotent(p: string)
    ensures Excerpt(Excerpt(p)) == Excerpt(p)
  {
    if |p| > 50 {
      assert Excerpt(p)[..50] == p[..50];
    }
  }

  /** Two prompts are stored alike exactly when they are equal or both are
      longer than 50 characters and agree on their first 50. */
  lemma ExcerptCollision(p: string, q: string)
    ensures Excerpt(p) == Excerpt(q) <==> p == q || (|p| > 50 && |q| > 50 && p[..50] == q[..50])
  {
    if Excerpt(p) == Excerpt(q) && |p| > 50 && |q| > 50 {
      assert Excerpt(p)[..50] == p[..50];
      assert Excerpt(q)[..50] == q[..50];
    }
  }
}
