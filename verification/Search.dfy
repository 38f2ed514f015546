/** `EscapeILIKE`, judged by what PostgreSQL's LIKE makes of its output. */
module Search {
  import opened Text
  import opened Common

  const DEFAULT_SEARCH_MAX_LEN := 100

  // ---- the pattern language, after section 9.7.1 of the PostgreSQL documentation ----

  /** Does the whole `text` match `pattern`? Letters are compared after `fold`, as ILIKE does. */
  predicate Like(text: string, pattern: string, fold: char -> char)
    decreases |text| + |pattern|
  {
    if pattern == "" then text == ""
    else if pattern[0] == '%' then
      Like(text, pattern[1..], fold) || (text != "" && Like(text[1..], pattern, fold))
    else if pattern[0] == '_' then text != "" && Like(text[1..], pattern[1..], fold)
    else if pattern[0] == '\\' then
      |pattern| > 1 && text != "" && fold(text[0]) == fold(pattern[1]) && Like(text[1..], pattern[2..], fold)
    else text != "" && fold(text[0]) == fold(pattern[0]) && Like(text[1..], pattern[1..], fold)
  }

  /** No escape character stands alone at the end, which PostgreSQL rejects with an error. */
  predicate WellFormed(pattern: string) {
    if pattern == "" then true
    else if pattern[0] == '\\' then |pattern| > 1 && WellFormed(pattern[2..])
    else WellFormed(pattern[1..])
  }

  predicate SameFolded(a: string, b: string, fold: char -> char) {
    |a| == |b| && forall i :: 0 <= i < |a| ==> fold(a[i]) == fold(b[i])
  }

  predicate FoundAt(text: string, part: string, i: nat, fold: char -> char) {
    i + |part| <= |text| && SameFolded(text[i..i + |part|], part, fold)
  }

  /** `text` has `part` somewhere, up to `fold`. */
  predicate Contains(text: string, part: string, fold: char -> char) {
    exists i :: 0 <= i <= |text| && FoundAt(text, part, i, fold)
  }

  // ---- the escaper ----

  predicate IsMeta(c: char) {
    c == '\\' || c == '%' || c == '_'
  }

  function Limit(maxLen: int): (n: nat)
    ensures maxLen > 0 ==> n == maxLen
    ensures maxLen <= 0 ==> n == 100
  {
    if maxLen <= 0 then DEFAULT_SEARCH_MAX_LEN else maxLen
  }

  /** The characters that are not control characters. */
  function Printable(s: string): (r: string)
    ensures |r| <= |s|
  {
    if s == "" then ""
    else if IsControl(s[0]) then Printable(s[1..])
    else [s[0]] + Printable(s[1..])
  }

  function Take(s: string, n: nat): string {
    if |s| <= n then s else s[..n]
  }

  /** The text the caller is taken to search for. */
  function Literal(s: string, maxLen: int): string {
    Take(Printable(s), Limit(maxLen))
  }

  function Escaped(c: char): string {
    if IsMeta(c) then ['\\', c] else [c]
  }

  function Escape(lit: string): string {
    if lit == "" then ""
    else Escaped(lit[0]) + Escape(lit[1..])
  }

  function Metas(lit: string): (n: nat)
    ensures n <= |lit|
  {
    if lit == "" then 0 else (if IsMeta(lit[0]) then 1 else 0) + Metas(lit[1..])
  }

  /** Reading an escaped text back. */
  function Unescape(p: string): string {
    if p == "" then ""
    else if p[0] == '\\' && |p| > 1 then [p[1]] + Unescape(p[2..])
    else [p[0]] + Unescape(p[1..])
  }

  /** What the string builder is asked to make room for, in the platform's int arithmetic. */
  function Hint(maxInt: int, limit: int): (r: int)
    requires IsMaxInt(maxInt) && FitsInt(maxInt, limit) && limit > 0
    ensures 0 < r <= maxInt / 2
  {
    var grow := Narrow(maxInt, limit * 4);
    var enough := if grow <= 0 || grow < limit then limit else grow;
    if enough > maxInt / 2 then maxInt / 2 else enough
  }

  /** EscapeILIKE; there is no output when the builder panics, asked for more than the allocator's `maxAlloc` bytes. */
  method EscapeILIKE(s: string, maxLen: int, maxInt: int, maxAlloc: int) returns (r: Option<string>)
    requires IsMaxInt(maxInt) && FitsInt(maxInt, maxLen)
    ensures r == if Hint(maxInt, Limit(maxLen)) <= maxAlloc then Some(Escape(Literal(s, maxLen))) else None
  {
    var limit := maxLen;
    if limit <= 0 {
      limit := DEFAULT_SEARCH_MAX_LEN;
    }
    var grow := Narrow(maxInt, limit * 4);
    if grow <= 0 || grow < limit {
      grow := limit;
    }
    if grow > maxInt / 2 {
      grow := maxInt / 2;
    }
    if grow > maxAlloc {
      return None;
    }
    var out := EscapeKept(s, maxLen, limit);
    return Some(out);
  }

  /** The loop over the characters, with the limit already decided. */
  method EscapeKept(s: string, ghost maxLen: int, limit: int) returns (out: string)
    requires limit == Limit(maxLen)
    ensures out == Escape(Literal(s, maxLen))
  {
    out := "";
    var n := 0;
    ghost var goal := Remaining(s, 0, limit);
    assert s == s[0..];
    RemainingIsEscape(s, 0, limit, s);
    for i := 0 to |s|
      invariant 0 <= n <= limit
      invariant out + Remaining(s, i, limit - n) == goal
    {
      if n >= limit {
        break;
      }
      var piece;
      match s[i] {
        case '\0' => continue;
        case '\\' => piece := "\\\\";
        case '%' => piece := "\\%";
        case '_' => piece := "\\_";
        case c =>
          if IsControl(c) {
            continue;
          }
          piece := [c];
      }
      assert piece == Escaped(s[i]);
      AppendAssoc(out, piece, Remaining(s, i + 1, limit - n - 1));
      out := out + piece;
      n := n + 1;
    }
    assert out + "" == out;
  }

  /** What is still to be put out when the characters before `i` are done and `n` more may be kept. */
  function Remaining(s: string, i: nat, n: nat): string
    requires i <= |s|
    decreases |s| - i
  {
    if i == |s| || n == 0 then ""
    else if IsControl(s[i]) then Remaining(s, i + 1, n)
    else Escaped(s[i]) + Remaining(s, i + 1, n - 1)
  }

  lemma {:induction false} RemainingIsEscape(s: string, i: nat, n: nat, rest: string)
    requires i <= |s| && rest == s[i..]
    ensures Remaining(s, i, n) == Escape(Take(Printable(rest), n))
    decreases |rest|
  {
    if rest != "" && n > 0 {
      var tail := rest[1..];
      assert tail == s[i + 1..] && rest[0] == s[i];
      if IsControl(rest[0]) {
        RemainingIsEscape(s, i + 1, n, tail);
      } else {
        RemainingIsEscape(s, i + 1, n - 1, tail);
        EscapeCons(rest[0], Take(Printable(tail), n - 1));
        TakeCons(rest[0], Printable(tail), n);
      }
    }
  }

  lemma TakeCons(c: char, s: string, n: nat)
    requires n > 0
    ensures Take([c] + s, n) == [c] + Take(s, n - 1)
  {
  }

  lemma EscapeCons(c: char, s: string)
    ensures Escape([c] + s) == Escaped(c) + Escape(s)
  {
    assert ([c] + s)[1..] == s;
  }

  /**
    Exactly which limits the builder can make room for. An allocator that gives at most a quarter of the largest int, as
    on 64-bit platforms, refuses the hint exactly when four bytes a character are too many: no wrap lets a huge limit
    through. One that gives half the largest int, as on 32-bit platforms, never refuses it.
   */
  lemma RoomIff(maxInt: int, maxLen: int, maxAlloc: int)
    requires IsMaxInt(maxInt) && FitsInt(maxInt, maxLen)
    ensures maxAlloc <= maxInt / 4 ==> (Hint(maxInt, Limit(maxLen)) <= maxAlloc <==> 4 * Limit(maxLen) <= maxAlloc)
    ensures maxAlloc >= maxInt / 2 ==> Hint(maxInt, Limit(maxLen)) <= maxAlloc
  {
    var limit := Limit(maxLen);
    if 4 * limit > maxInt {
      assert Hint(maxInt, limit) >= Min(limit, maxInt / 2) > maxInt / 4;
    }
  }

  /** The largest int, meant as "no limit", is refused by an allocator of 48-bit addresses. */
  lemma NoLimitPanics()
    ensures Hint(MAX_INT64, Limit(MAX_INT64)) > 0x1_0000_0000_0000
  {
  }

  /** ValidateSearchQ. */
  method ValidateSearchQ(q: string) returns (ok: bool)
    ensures ok <==> |q| <= DEFAULT_SEARCH_MAX_LEN && forall c :: c in q ==> !IsControl(c)
  {
    if |q| > DEFAULT_SEARCH_MAX_LEN {
      return false;
    }
    for i := 0 to |q|
      invariant forall c :: c in q[..i] ==> !IsControl(c)
    {
      if q[i] == '\0' || q[i] == '\n' || q[i] == '\r' || IsControl(q[i]) {
        assert IsControl(q[i]) && q[i] in q;
        return false;
      }
      assert q[..i + 1] == q[..i] + [q[i]];
    }
    assert q[..|q|] == q;
    return true;
  }

  // ---- what the literal is ----

  /** Printable keeps, of every part of a text by itself, the characters that are not control characters. */
  lemma {:induction false} PrintableAppend(a: string, b: string)
    ensures Printable(a + b) == Printable(a) + Printable(b)
  {
    if a == "" {
      assert a + b == b;
    } else {
      assert (a + b)[1..] == a[1..] + b;
      PrintableAppend(a[1..], b);
    }
  }

  lemma PrintableOne(c: char)
    ensures Printable([c]) == if IsControl(c) then "" else [c]
  {
    assert [c][1..] == "";
  }

  /** `lit` is what is kept of the first `k` characters, and no more could be kept, or there are no more. */
  predicate KeptOf(s: string, k: nat, lit: string, limit: nat) {
    && k <= |s| && lit == Printable(s[..k]) && |lit| <= limit && (|lit| < limit ==> k == |s|)
  }

  lemma {:induction false} KeptUpTo(s: string, limit: nat) returns (k: nat)
    ensures KeptOf(s, k, Take(Printable(s), limit), limit)
  {
    if s == "" || limit == 0 {
      k := 0;
      assert s[..0] == "" && s != "" ==> Take(Printable(s), 0) == "";
    } else {
      var c, rest := s[0], s[1..];
      var j := KeptUpTo(rest, if IsControl(c) then limit else limit - 1);
      k := j + 1;
      assert s == [c] + rest && s[..k] == [c] + rest[..j];
      PrintableAppend([c], rest);
      PrintableAppend([c], rest[..j]);
      PrintableOne(c);
      TakeCons(c, Printable(rest), limit);
    }
  }

  lemma KeptIsOne(s: string, k: nat, j: nat, limit: nat)
    requires k <= j <= |s| && KeptOf(s, k, Printable(s[..k]), limit) && KeptOf(s, j, Printable(s[..j]), limit)
    ensures Printable(s[..k]) == Printable(s[..j])
  {
    assert s[..j] == s[..k] + s[k..j];
    PrintableAppend(s[..k], s[k..j]);
  }

  /**
    The literal is exactly the kept characters of some beginning of the text, as many as the limit allows: characters
    that are dropped do not use it up.
   */
  lemma LiteralIff(s: string, maxLen: int, limit: nat, lit: string)
    requires limit == if maxLen > 0 then maxLen else 100
    ensures lit == Literal(s, maxLen) <==> exists k :: KeptOf(s, k, lit, limit)
  {
    var j := KeptUpTo(s, limit);
    if k :| KeptOf(s, k, lit, limit) {
      if k <= j {
        KeptIsOne(s, k, j, limit);
      } else {
        KeptIsOne(s, j, k, limit);
      }
    }
  }

  // ---- what the escaped text matches ----

  lemma EscapeNext(lit: string, rest: string)
    requires lit != ""
    ensures var p := Escape(lit) + rest;
            && p != "" && p[0] != '%' && p[0] != '_'
            && if IsMeta(lit[0]) then p[0] == '\\' && |p| > 1 && p[1] == lit[0] && p[2..] == Escape(lit[1..]) + rest
               else p[0] == lit[0] && p[1..] == Escape(lit[1..]) + rest
  {
    var tail := Escape(lit[1..]) + rest;
    assert Escape(lit) + rest == Escaped(lit[0]) + tail;
    assert (Escaped(lit[0]) + tail)[|Escaped(lit[0])|..] == tail;
  }

  /** An escaped text matches exactly itself, letter by letter, before whatever the pattern goes on with. */
  lemma {:induction false} LikeEscaped(text: string, lit: string, rest: string, fold: char -> char)
    ensures Like(text, Escape(lit) + rest, fold)
       <==> |lit| <= |text| && SameFolded(text[..|lit|], lit, fold) && Like(text[|lit|..], rest, fold)
  {
    if lit == "" {
      assert Escape(lit) + rest == rest;
      assert text[0..] == text;
    } else {
      EscapeNext(lit, rest);
      if text != "" {
        LikeEscaped(text[1..], lit[1..], rest, fold);
        if |lit| <= |text| {
          assert text[1..][|lit| - 1..] == text[|lit|..];
          assert text[1..][..|lit| - 1] == text[..|lit|][1..];
          FoldedNext(text[..|lit|], lit, fold);
        }
      }
    }
  }

  lemma FoldedNext(a: string, b: string, fold: char -> char)
    requires a != "" && |a| == |b|
    ensures SameFolded(a, b, fold) <==> fold(a[0]) == fold(b[0]) && SameFolded(a[1..], b[1..], fold)
  {
    if SameFolded(a[1..], b[1..], fold) && fold(a[0]) == fold(b[0]) {
      forall i | 0 <= i < |a|
        ensures fold(a[i]) == fold(b[i])
      {
        if i > 0 {
          assert a[i] == a[1..][i - 1] && b[i] == b[1..][i - 1];
        }
      }
    }
  }

  lemma {:induction false} PercentMatchesAll(text: string, fold: char -> char)
    ensures Like(text, "%", fold)
  {
    assert "%"[1..] == "";
    if text != "" {
      PercentMatchesAll(text[1..], fold);
    }
  }

  /** A leading '%' skips any number of characters. */
  lemma {:induction false} PercentSkips(text: string, pattern: string, fold: char -> char)
    ensures Like(text, "%" + pattern, fold) <==> exists i :: 0 <= i <= |text| && Like(text[i..], pattern, fold)
  {
    var p := "%" + pattern;
    assert p[1..] == pattern;
    assert text[0..] == text;
    if text != "" {
      PercentSkips(text[1..], pattern, fold);
      assert forall i :: 0 <= i <= |text| - 1 ==> text[1..][i..] == text[i + 1..];
      if exists i :: 0 <= i <= |text| && Like(text[i..], pattern, fold) {
        var i :| 0 <= i <= |text| && Like(text[i..], pattern, fold);
        if i > 0 {
          assert text[1..][i - 1..] == text[i..];
        }
      }
    }
  }

  /** The escaped text alone matches exactly the literal. */
  lemma EscapedMatchesLiteral(text: string, s: string, maxLen: int, fold: char -> char)
    ensures Like(text, Escape(Literal(s, maxLen)), fold) <==> SameFolded(text, Literal(s, maxLen), fold)
  {
    var lit := Literal(s, maxLen);
    LikeEscaped(text, lit, "", fold);
    assert Escape(lit) + "" == Escape(lit);
    if |lit| <= |text| && text[|lit|..] == "" {
      assert text[..|lit|] == text;
    }
  }

  /** Between two '%', the escaped text finds exactly the texts that contain the literal. */
  lemma SearchFindsContaining(text: string, s: string, maxLen: int, fold: char -> char)
    ensures Like(text, "%" + Escape(Literal(s, maxLen)) + "%", fold) <==> Contains(text, Literal(s, maxLen), fold)
  {
    var lit := Literal(s, maxLen);
    assert "%" + Escape(lit) + "%" == "%" + (Escape(lit) + "%");
    PercentSkips(text, Escape(lit) + "%", fold);
    forall i | 0 <= i <= |text|
      ensures Like(text[i..], Escape(lit) + "%", fold) <==> FoundAt(text, lit, i, fold)
    {
      LikeEscaped(text[i..], lit, "%", fold);
      if i + |lit| <= |text| {
        PercentMatchesAll(text[i..][|lit|..], fold);
        assert text[i..][..|lit|] == text[i..i + |lit|];
      }
    }
  }

  /** A query that ValidateSearchQ accepts is searched for as it stands, whatever wildcards it holds. */
  lemma ValidQueryIsLiteral(q: string)
    requires |q| <= DEFAULT_SEARCH_MAX_LEN && forall c :: c in q ==> !IsControl(c)
    ensures Literal(q, 0) == q
  {
    AllPrintable(q);
  }

  lemma {:induction false} AllPrintable(s: string)
    requires forall c :: c in s ==> !IsControl(c)
    ensures Printable(s) == s
  {
    if s != "" {
      AllPrintable(s[1..]);
    }
  }

  /** The pattern is never one that PostgreSQL rejects. */
  lemma {:induction false} EscapedIsWellFormed(lit: string, rest: string)
    requires WellFormed(rest)
    ensures WellFormed(Escape(lit) + rest)
  {
    if lit == "" {
      assert Escape(lit) + rest == rest;
    } else {
      EscapeNext(lit, rest);
      EscapedIsWellFormed(lit[1..], rest);
    }
  }

  /** Nothing of the literal is lost: different literals have different escaped texts. */
  lemma {:induction false} EscapeRoundTrip(lit: string)
    ensures Unescape(Escape(lit)) == lit
  {
    if lit != "" {
      EscapeNext(lit, "");
      assert Escape(lit) + "" == Escape(lit) && Escape(lit[1..]) + "" == Escape(lit[1..]);
      EscapeRoundTrip(lit[1..]);
    }
  }

  /** The limit counts kept source characters: the output is longer by one for each character that was escaped. */
  lemma {:induction false} EscapedLength(lit: string)
    ensures |Escape(lit)| == |lit| + Metas(lit)
  {
    if lit != "" {
      EscapedLength(lit[1..]);
    }
  }

  /** The output keeps to the documented limit exactly when the escapes fit too. */
  lemma LimitKeptIff(s: string, maxLen: int)
    ensures |Escape(Literal(s, maxLen))| <= Limit(maxLen)
       <==> |Literal(s, maxLen)| + Metas(Literal(s, maxLen)) <= Limit(maxLen)
    ensures |Escape(Literal(s, maxLen))| <= 2 * Limit(maxLen)
  {
    EscapedLength(Literal(s, maxLen));
  }

  function Percents(n: nat): string {
    if n == 0 then "" else "%" + Percents(n - 1)
  }

  /** The documented limit on the output fails for every `maxLen`: as many '%' come out twice as long. */
  lemma OutputCanDouble(maxLen: int)
    ensures |Escape(Literal(Percents(Limit(maxLen)), maxLen))| == 2 * Limit(maxLen)
  {
    PercentsKept(Limit(maxLen));
    EscapedLength(Percents(Limit(maxLen)));
  }

  lemma {:induction false} PercentsKept(n: nat)
    ensures |Percents(n)| == n && Printable(Percents(n)) == Percents(n) && Metas(Percents(n)) == n
  {
    if n > 0 {
      assert Percents(n)[1..] == Percents(n - 1);
      PercentsKept(n - 1);
    }
  }
}
