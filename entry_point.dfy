/**
 * The Java entry-point extractor of backend/execute.js: the class name is the
 * first capture of the ECMAScript regular expression `public\s+class\s+(\w+)`
 * (non-global, so the leftmost match), or "Main" when the code has no match.
 *
 * `\s` and `\w` are the character-class escapes of ECMA-262 section 22.2
 * (CharacterClassEscape): `\s` is WhiteSpace or LineTerminator, `\w` is
 * [A-Za-z0-9_] for a pattern without the `u` or `i` flag.
 */
module EntryPoint {
  import opened Wrappers

  /** `\s`: WhiteSpace (TAB, VT, FF, SP, NBSP, ZWNBSP and the Zs category) or LineTerminator (LF, CR, LS, PS). */
  predicate IsSpace(c: char) {
    var n := c as int;
    n == 0x09 || n == 0x0A || n == 0x0B || n == 0x0C || n == 0x0D || n == 0x20 ||
    n == 0xA0 || n == 0x1680 || (0x2000 <= n <= 0x200A) || n == 0x2028 || n == 0x2029 ||
    n == 0x202F || n == 0x205F || n == 0x3000 || n == 0xFEFF
  }

  /** `\w`: an ASCII letter, an ASCII digit or the underscore. */
  predicate IsWord(c: char) {
    ('a' <= c <= 'z') || ('A' <= c <= 'Z') || ('0' <= c <= '9') || c == '_'
  }

  /** The two character classes are disjoint. */
  lemma WordIsNotSpace(c: char)
    requires IsWord(c)
    ensures !IsSpace(c)
  {
  }

  ghost predicate AllWord(t: string) {
    forall i :: 0 <= i < |t| ==> IsWord(t[i])
  }

  /** Every character of `s[lo..hi]` is `\s`. */
  ghost predicate SpacesIn(s: string, lo: nat, hi: nat) {
    hi <= |s| && forall j {:trigger IsSpace(s[j])} :: lo <= j < hi ==> IsSpace(s[j])
  }

  /** Every character of `s[lo..hi]` is `\w`. */
  ghost predicate WordsIn(s: string, lo: nat, hi: nat) {
    hi <= |s| && forall j {:trigger IsWord(s[j])} :: lo <= j < hi ==> IsWord(s[j])
  }

  /** `lit` occurs in `s` at index `i`. */
  predicate LiteralAt(s: string, i: nat, lit: string)
    ensures LiteralAt(s, i, lit) ==> i + |lit| <= |s|
    decreases |lit|
  {
    if |lit| == 0 then i <= |s| else i < |s| && s[i] == lit[0] && LiteralAt(s, i + 1, lit[1..])
  }

  const Public: string := "public"
  const Class: string := "class"
  const DefaultClass: string := "Main"

  /**
   * One match of the pattern: "public" at `start`, `gap1` whitespace characters,
   * "class", `gap2` whitespace characters, then the captured name of `len` word
   * characters.
   */
  datatype Occurrence = Occurrence(start: nat, gap1: nat, gap2: nat, len: nat) {
    function ClassAt(): nat { start + |Public| + gap1 }
    function NameStart(): nat { ClassAt() + |Class| + gap2 }
    function NameEnd(): nat { NameStart() + len }
  }

  /** `s` contains a match of `public\s+class\s+\w+` described by `h` (the capture need not be maximal). */
  ghost predicate Occurs(s: string, h: Occurrence) {
    && 1 <= h.gap1 && 1 <= h.gap2 && 1 <= h.len && h.NameEnd() <= |s|
    && LiteralAt(s, h.start, Public)
    && SpacesIn(s, h.start + |Public|, h.ClassAt())
    && LiteralAt(s, h.ClassAt(), Class)
    && SpacesIn(s, h.ClassAt() + |Class|, h.NameStart())
    && WordsIn(s, h.NameStart(), h.NameEnd())
  }

  /** The greedy `(\w+)` stops only at the end of the text or at a non-word character. */
  ghost predicate Greedy(s: string, h: Occurrence) {
    h.NameEnd() <= |s| && (h.NameEnd() == |s| || !IsWord(s[h.NameEnd()]))
  }

  /** No match of the pattern starts at index `i`. */
  ghost predicate NoOccurrenceAt(s: string, i: nat) {
    forall h: Occurrence :: h.start == i ==> !Occurs(s, h)
  }

  /** Length of the longest run of `\s` characters starting at `i`. */
  function SpaceRun(s: string, i: nat): (n: nat)
    requires i <= |s|
    ensures SpacesIn(s, i, i + n)
    ensures i + n == |s| || !IsSpace(s[i + n])
    decreases |s| - i
  {
    if i < |s| && IsSpace(s[i]) then 1 + SpaceRun(s, i + 1) else 0
  }

  /** Length of the longest run of `\w` characters starting at `i`. */
  function WordRun(s: string, i: nat): (n: nat)
    requires i <= |s|
    ensures WordsIn(s, i, i + n)
    ensures i + n == |s| || !IsWord(s[i + n])
    decreases |s| - i
  {
    if i < |s| && IsWord(s[i]) then 1 + WordRun(s, i + 1) else 0
  }

  /** The match starting exactly at `i`, as the backtracking matcher finds it. */
  function MatchAt(s: string, i: nat): (r: Option<Occurrence>)
    requires i <= |s|
    ensures r.Some? ==> r.value.start == i && Occurs(s, r.value) && Greedy(s, r.value)
  {
    if !LiteralAt(s, i, Public) then None
    else
      var gap1 := SpaceRun(s, i + |Public|);
      var classAt := i + |Public| + gap1;
      if gap1 == 0 || !LiteralAt(s, classAt, Class) then None
      else
        var gap2 := SpaceRun(s, classAt + |Class|);
        if gap2 == 0 then None
        else
          var len := WordRun(s, classAt + |Class| + gap2);
          if len == 0 then None
          else Some(Occurrence(i, gap1, gap2, len))
  }

  /** A run of `\s` that ends at a non-`\s` character (or the end) is the longest run. */
  lemma SpaceRunUnique(s: string, i: nat, k: nat)
    requires SpacesIn(s, i, i + k)
    requires i + k == |s| || !IsSpace(s[i + k])
    ensures SpaceRun(s, i) == k
  {
  }

  /** A run of `\w` that ends at a non-`\w` character (or the end) is the longest run. */
  lemma WordRunUnique(s: string, i: nat, k: nat)
    requires WordsIn(s, i, i + k)
    requires i + k == |s| || !IsWord(s[i + k])
    ensures WordRun(s, i) == k
  {
  }

  /** A greedy match at `h.start` is exactly what `MatchAt` returns there. */
  lemma MatchAtDetermined(s: string, h: Occurrence)
    requires Occurs(s, h) && Greedy(s, h)
    ensures MatchAt(s, h.start) == Some(h)
  {
    var i, c, w := h.start, h.ClassAt(), h.NameStart();
    WordIsNotSpace(s[c]);
    SpaceRunUnique(s, i + |Public|, h.gap1);
    WordIsNotSpace(s[w]);
    SpaceRunUnique(s, c + |Class|, h.gap2);
    WordRunUnique(s, w, h.len);
  }

  /** When `MatchAt` finds nothing at `i`, no match of the pattern starts at `i`. */
  lemma MatchAtComplete(s: string, i: nat)
    requires i <= |s|
    ensures MatchAt(s, i).None? ==> NoOccurrenceAt(s, i)
  {
    forall h: Occurrence | h.start == i && Occurs(s, h)
      ensures MatchAt(s, i).Some?
    {
      var w := h.NameStart();
      assert IsWord(s[w]);
      MatchAtDetermined(s, h.(len := WordRun(s, w)));
    }
  }

  /** Two matches at the same index with greedy captures are the same match. */
  lemma OccurrenceUnique(s: string, h1: Occurrence, h2: Occurrence)
    requires Occurs(s, h1) && Greedy(s, h1)
    requires Occurs(s, h2) && Greedy(s, h2)
    requires h1.start == h2.start
    ensures h1 == h2
  {
    MatchAtDetermined(s, h1);
    MatchAtDetermined(s, h2);
  }

  /** Leftmost-match search, scanning start positions from `from` onwards. */
  function Search(s: string, from: nat): (r: Option<Occurrence>)
    requires from <= |s|
    ensures r.Some? ==> from <= r.value.start && Occurs(s, r.value) && Greedy(s, r.value)
    decreases |s| - from
  {
    match MatchAt(s, from)
    case Some(h) => Some(h)
    case None => if from == |s| then None else Search(s, from + 1)
  }

  /** `MatchAt` fails at every start index in `[lo, hi)`. */
  ghost predicate NoMatchBetween(s: string, lo: nat, hi: nat)
    decreases hi - lo
  {
    lo >= hi || (lo <= |s| && MatchAt(s, lo).None? && NoMatchBetween(s, lo + 1, hi))
  }

  lemma {:induction false} NoMatchBetweenAt(s: string, lo: nat, hi: nat, j: nat)
    ensures NoMatchBetween(s, lo, hi) && lo <= j < hi ==> j <= |s| && MatchAt(s, j).None?
    decreases hi - lo
  {
    if lo < hi && j != lo {
      NoMatchBetweenAt(s, lo + 1, hi, j);
    }
  }

  /** `Search` returns the first start index at or after `from` where `MatchAt` succeeds. */
  lemma {:induction false} SearchFirst(s: string, from: nat)
    requires from <= |s|
    ensures Search(s, from).Some? ==>
      Search(s, from) == MatchAt(s, Search(s, from).value.start) &&
      NoMatchBetween(s, from, Search(s, from).value.start)
    ensures Search(s, from).None? ==> NoMatchBetween(s, from, |s| + 1)
    decreases |s| - from
  {
    if MatchAt(s, from).None? && from < |s| {
      SearchFirst(s, from + 1);
      assert Search(s, from) == Search(s, from + 1);
    }
  }

  /** `Search` finds nothing exactly when the text holds no match of the pattern. */
  lemma SearchComplete(s: string)
    ensures Search(s, 0).None? <==> forall h: Occurrence :: !Occurs(s, h)
  {
    SearchFirst(s, 0);
    forall h: Occurrence | Occurs(s, h)
      ensures Search(s, 0).Some?
    {
      MatchAtComplete(s, h.start);
      NoMatchBetweenAt(s, 0, |s| + 1, h.start);
    }
  }

  /** The class name `executeCode` stages a Java submission under. */
  function ClassName(code: string): (name: string)
    ensures |name| > 0 && AllWord(name)
  {
    match Search(code, 0)
    case Some(h) => code[h.NameStart() .. h.NameEnd()]
    case None => DefaultClass
  }

  /**
   * With a match, the class name is the maximal word-character run captured by
   * the leftmost match of `public\s+class\s+`.
   */
  lemma ClassNameIsLeftmostCapture(code: string, h: Occurrence)
    requires Occurs(code, h) && Greedy(code, h)
    requires forall h': Occurrence :: h'.start < h.start ==> !Occurs(code, h')
    ensures ClassName(code) == code[h.NameStart() .. h.NameEnd()]
  {
    SearchFirst(code, 0);
    MatchAtDetermined(code, h);
    var found := Search(code, 0);
    assert found.Some? by {
      NoMatchBetweenAt(code, 0, |code| + 1, h.start);
    }
    assert found.value.start <= h.start by {
      NoMatchBetweenAt(code, 0, found.value.start, h.start);
    }
    assert found.value.start == h.start;
  }

  /** Without any match, the class name is exactly "Main". */
  lemma ClassNameFallback(code: string)
    requires forall h: Occurrence :: !Occurs(code, h)
    ensures ClassName(code) == DefaultClass
  {
  }
}
