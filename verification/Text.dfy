/** Trimming as the source language does it. */
module Text {
  /** White space and line terminators. */
  predicate IsSpace(c: char) {
    (c as int) in {9, 10, 11, 12, 13, 32, 160, 5760, 8192, 8193, 8194, 8195, 8196, 8197, 8198, 8199, 8200, 8201, 8202,
                   8232, 8233, 8239, 8287, 12288, 65279}
  }

  function TrimStart(s: string): string {
    if |s| > 0 && IsSpace(s[0]) then TrimStart(s[1..]) else s
  }

  function TrimEnd(s: string): string {
    if |s| > 0 && IsSpace(s[|s| - 1]) then TrimEnd(s[..|s| - 1]) else s
  }

  function Trim(s: string): string {
    TrimEnd(TrimStart(s))
  }

  /** A string is blank when trimming leaves nothing, which is when it is white space all through. */
  predicate Blank(s: string) {
    forall i :: 0 <= i < |s| ==> IsSpace(s[i])
  }

  lemma {:induction false} TrimStartBlank(s: string)
    ensures Blank(TrimStart(s)) <==> Blank(s)
    ensures Blank(s) ==> TrimStart(s) == ""
  {
    if |s| > 0 && IsSpace(s[0]) {
      TrimStartBlank(s[1..]);
      assert forall i :: 0 < i < |s| ==> s[i] == s[1..][i - 1];
    }
  }

  lemma {:induction false} TrimEndBlank(s: string)
    ensures TrimEnd(s) == "" <==> Blank(s)
  {
    if |s| > 0 && IsSpace(s[|s| - 1]) {
      TrimEndBlank(s[..|s| - 1]);
    }
  }

  lemma TrimEmptiesBlank(s: string)
    ensures Trim(s) == "" <==> Blank(s)
  {
    TrimStartBlank(s);
    TrimEndBlank(TrimStart(s));
  }

  /** Trimmed text starts and ends with something visible. */
  lemma {:induction false} TrimIsTight(s: string)
    ensures Trim(s) != "" ==> !IsSpace(Trim(s)[0]) && !IsSpace(Trim(s)[|Trim(s)| - 1])
  {
    TrimStartIsTight(s);
    TrimEndIsTight(TrimStart(s));
  }

  lemma {:induction false} TrimStartIsTight(s: string)
    ensures TrimStart(s) != "" ==> !IsSpace(TrimStart(s)[0])
  {
    if |s| > 0 && IsSpace(s[0]) {
      TrimStartIsTight(s[1..]);
    }
  }

  lemma {:induction false} TrimEndIsTight(s: string)
    ensures TrimEnd(s) <= s
    ensures TrimEnd(s) != "" ==> !IsSpace(TrimEnd(s)[|TrimEnd(s)| - 1])
  {
    if |s| > 0 && IsSpace(s[|s| - 1]) {
      TrimEndIsTight(s[..|s| - 1]);
    }
  }

  /** Trimming twice is trimming once. */
  lemma TrimTwice(s: string)
    ensures Trim(Trim(s)) == Trim(s)
  {
    TrimIsTight(s);
  }

  lemma {:induction false} TrimStartDrops(before: string, rest: string)
    requires Blank(before) && (rest != "" ==> !IsSpace(rest[0]))
    ensures TrimStart(before + rest) == rest
  {
    if before == "" {
      assert before + rest == rest;
    } else {
      assert (before + rest)[1..] == before[1..] + rest;
      TrimStartDrops(before[1..], rest);
    }
  }

  lemma {:induction false} TrimEndDrops(rest: string, after: string)
    requires Blank(after) && (rest != "" ==> !IsSpace(rest[|rest| - 1]))
    ensures TrimEnd(rest + after) == rest
  {
    if after == "" {
      assert rest + after == rest;
    } else {
      assert (rest + after)[..|rest + after| - 1] == rest + after[..|after| - 1];
      TrimEndDrops(rest, after[..|after| - 1]);
    }
  }

  /** Trimming takes off the white space around a text and nothing else. */
  lemma TrimTakesTheMiddle(before: string, middle: string, after: string)
    requires Blank(before) && Blank(after)
    requires middle != "" && !IsSpace(middle[0]) && !IsSpace(middle[|middle| - 1])
    ensures Trim(before + middle + after) == middle
  {
    assert before + middle + after == before + (middle + after);
    TrimStartDrops(before, middle + after);
    TrimEndDrops(middle, after);
  }
}
