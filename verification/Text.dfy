/** The few functions of Go's strings package that the discovery code uses. */
module Text {

  /** strings.Split for a separator of one character. */
  function Split(s: string, separator: char): (parts: seq<string>)
    ensures |parts| >= 1
  {
    if s == [] then [[]]
    else
      var rest := Split(s[1..], separator);
      if s[0] == separator then [[]] + rest else [[s[0]] + rest[0]] + rest[1..]
  }

  function Join(parts: seq<string>, separator: char): string
    requires |parts| >= 1
  {
    if |parts| == 1 then parts[0] else parts[0] + [separator] + Join(parts[1..], separator)
  }

  lemma {:induction false} SplitFirst(part: string, rest: string, separator: char)
    requires separator !in part
    ensures Split(part + [separator] + rest, separator) == [part] + Split(rest, separator)
  {
    if part == [] {
      assert part + [separator] + rest == [separator] + rest;
    } else {
      assert (part + [separator] + rest)[1..] == part[1..] + [separator] + rest;
      SplitFirst(part[1..], rest, separator);
      assert [part[0]] + part[1..] == part;
    }
  }

  lemma {:induction false} SplitNone(part: string, separator: char)
    requires separator !in part
    ensures Split(part, separator) == [part]
  {
    if part != [] {
      SplitNone(part[1..], separator);
      assert [part[0]] + part[1..] == part;
    }
  }

  /** Splitting takes apart exactly what joining put together. */
  lemma {:induction false} SplitJoin(parts: seq<string>, separator: char)
    requires |parts| >= 1
    requires forall i :: 0 <= i < |parts| ==> separator !in parts[i]
    ensures Split(Join(parts, separator), separator) == parts
  {
    if |parts| == 1 {
      SplitNone(parts[0], separator);
    } else {
      SplitFirst(parts[0], Join(parts[1..], separator), separator);
      SplitJoin(parts[1..], separator);
    }
  }

  predicate IsSpace(c: char) {
    || c == ' ' || '\U{09}' <= c <= '\U{0D}' || c == '\U{85}' || c == '\U{A0}' || c == '\U{1680}' || '\U{2000}' <= c <= '\U{200A}'
    || c == '\U{2028}' || c == '\U{2029}' || c == '\U{202F}' || c == '\U{205F}' || c == '\U{3000}'
  }

  function TrimLeft(s: string): string {
    if s != [] && IsSpace(s[0]) then TrimLeft(s[1..]) else s
  }

  function TrimRight(s: string): string {
    if s != [] && IsSpace(s[|s| - 1]) then TrimRight(s[..|s| - 1]) else s
  }

  /** strings.TrimSpace */
  function TrimSpace(s: string): string {
    TrimRight(TrimLeft(s))
  }

  predicate Blank(s: string) {
    forall i :: 0 <= i < |s| ==> IsSpace(s[i])
  }

  /** Neither end is a space. */
  predicate Trimmed(s: string) {
    s == [] || (!IsSpace(s[0]) && !IsSpace(s[|s| - 1]))
  }

  lemma {:induction false} TrimLeftBlank(before: string, s: string)
    requires Blank(before) && (s == [] || !IsSpace(s[0]))
    ensures TrimLeft(before + s) == s
  {
    if before != [] {
      assert (before + s)[1..] == before[1..] + s;
      TrimLeftBlank(before[1..], s);
    } else {
      assert before + s == s;
    }
  }

  lemma {:induction false} TrimRightBlank(s: string, after: string)
    requires Blank(after) && (s == [] || !IsSpace(s[|s| - 1]))
    ensures TrimRight(s + after) == s
  {
    if after != [] {
      assert (s + after)[..|s + after| - 1] == s + after[..|after| - 1];
      TrimRightBlank(s, after[..|after| - 1]);
    } else {
      assert s + after == s;
    }
  }

  lemma TrimPadded(before: string, s: string, after: string)
    requires Blank(before) && Blank(after) && s != [] && Trimmed(s)
    ensures TrimSpace(before + s + after) == s
  {
    assert before + s + after == before + (s + after);
    TrimLeftBlank(before, s + after);
    TrimRightBlank(s, after);
  }

  /** strings.ReplaceAll(s, c, "") */
  function Remove(s: string, c: char): string {
    if s == [] then [] else if s[0] == c then Remove(s[1..], c) else [s[0]] + Remove(s[1..], c)
  }

  lemma {:induction false} RemoveNone(s: string, c: char)
    requires c !in s
    ensures Remove(s, c) == s
  {
    if s != [] {
      RemoveNone(s[1..], c);
    }
  }

  lemma {:induction false} RemoveConcat(s: string, t: string, c: char)
    ensures Remove(s + t, c) == Remove(s, c) + Remove(t, c)
  {
    if s == [] {
      assert s + t == t;
    } else {
      assert (s + t)[1..] == s[1..] + t;
      RemoveConcat(s[1..], t, c);
    }
  }

  /** strings.Contains */
  predicate Contains(s: string, part: string) {
    part <= s || (s != [] && Contains(s[1..], part))
  }

  /** There is something before the part and something after it. */
  lemma {:induction false} ContainsRead(s: string, part: string)
    ensures Contains(s, part) <==> exists before, after :: s == before + part + after
  {
    if part <= s {
      assert s == "" + part + s[|part|..];
    } else if s != [] {
      ContainsRead(s[1..], part);
      if before, after :| s[1..] == before + part + after {
        assert s == ([s[0]] + before) + part + after;
      }
      if before, after :| s == before + part + after {
        assert before != [];
        assert s[1..] == before[1..] + part + after;
      }
    }
  }

  /** strings.ToLower, on the letters that occur in kinds. */
  function ToLower(s: string): string {
    seq(|s|, i requires 0 <= i < |s| => if 'A' <= s[i] <= 'Z' then s[i] - 'A' + 'a' else s[i])
  }

  /** Letters are 32 apart from their lower-case forms; lower-case text stays as it is. */
  lemma LowerRead(s: string)
    ensures |ToLower(s)| == |s| && ToLower(ToLower(s)) == ToLower(s)
    ensures forall i :: 0 <= i < |s| ==> ToLower(s)[i] as int == s[i] as int + if 65 <= s[i] as int <= 90 then 32 else 0
  {
  }
}
