/**
 * The JavaScript string built-ins the core relies on: `trim`, `includes`,
 * `split` on a character, on a substring and on the pattern `/\s{2,}|\t/`,
 * ASCII case mapping, and the numeric conversions `parseFloat`, `parseInt`
 * and `Number` (in the simplified decimal form described in README.md).
 */
module Text {
  import opened Options

  /** ECMAScript `WhiteSpace` and `LineTerminator`: the characters `trim` removes and `\s` matches. */
  predicate IsSpace(c: char) {
    if c <= ' ' then c == ' ' || '\t' <= c <= '\r'
    else c >= '\U{00A0}' && IsWideSpace(c)
  }

  /** The whitespace characters above the ASCII range. */
  predicate IsWideSpace(c: char) {
    c == '\U{00A0}' || c == '\U{1680}' || ('\U{2000}' <= c <= '\U{200A}')
    || c == '\U{2028}' || c == '\U{2029}' || c == '\U{202F}' || c == '\U{205F}'
    || c == '\U{3000}' || c == '\U{FEFF}'
  }

  predicate IsDigit(c: char) { '0' <= c <= '9' }

  // ---------------------------------------------------------------- trim

  function TrimStart(s: string): (r: string)
    ensures |r| <= |s|
  {
    if s != [] && IsSpace(s[0]) then TrimStart(s[1..]) else s
  }

  function TrimEnd(s: string): string {
    if s != [] && IsSpace(s[|s| - 1]) then TrimEnd(s[..|s| - 1]) else s
  }

  /** `s.trim()`. */
  function Trim(s: string): string {
    TrimEnd(TrimStart(s))
  }

  predicate IsTrimmed(s: string) {
    s == [] || (!IsSpace(s[0]) && !IsSpace(s[|s| - 1]))
  }

  /** `trimStart` drops exactly the leading whitespace. */
  lemma {:induction false} TrimStartSpec(s: string)
    ensures |TrimStart(s)| <= |s| && TrimStart(s) == s[|s| - |TrimStart(s)|..]
    ensures TrimStart(s) == [] || !IsSpace(TrimStart(s)[0])
    ensures forall i :: 0 <= i < |s| - |TrimStart(s)| ==> IsSpace(s[i])
  {
    if s != [] && IsSpace(s[0]) {
      var t := s[1..];
      TrimStartSpec(t);
      assert TrimStart(s) == TrimStart(t);
      assert t[|t| - |TrimStart(t)|..] == s[|s| - |TrimStart(s)|..];
      forall i | 0 <= i < |s| - |TrimStart(s)| ensures IsSpace(s[i]) {
        if i > 0 {
          assert s[i] == t[i - 1];
        }
      }
    }
  }

  /** `trimEnd` drops exactly the trailing whitespace. */
  lemma {:induction false} TrimEndSpec(s: string)
    ensures |TrimEnd(s)| <= |s| && TrimEnd(s) == s[..|TrimEnd(s)|]
    ensures TrimEnd(s) == [] || !IsSpace(TrimEnd(s)[|TrimEnd(s)| - 1])
    ensures forall i :: |TrimEnd(s)| <= i < |s| ==> IsSpace(s[i])
  {
    if s != [] && IsSpace(s[|s| - 1]) {
      var t := s[..|s| - 1];
      TrimEndSpec(t);
      assert TrimEnd(s) == TrimEnd(t);
      assert t[..|TrimEnd(t)|] == s[..|TrimEnd(s)|];
      forall i | |TrimEnd(s)| <= i < |s| ensures IsSpace(s[i]) {
        if i < |t| {
          assert s[i] == t[i];
        }
      }
    }
  }

  /**
   * What `trim` keeps is the slice of `s` that starts after the leading
   * whitespace (`Leading(s)` characters) and is followed only by whitespace.
   */
  lemma TrimSpec(s: string)
    ensures IsTrimmed(Trim(s))
    ensures Leading(s) + |Trim(s)| <= |s| && Trim(s) == s[Leading(s)..Leading(s) + |Trim(s)|]
    ensures forall k :: 0 <= k < Leading(s) ==> IsSpace(s[k])
    ensures forall k :: Leading(s) + |Trim(s)| <= k < |s| ==> IsSpace(s[k])
  {
    var lead := Leading(s);
    TrimStartSpec(s);
    assert TrimStart(s) == s[lead..];
    TrimEndOfSuffix(s, lead);
    assert Trim(s) == TrimEnd(s[lead..]);
    TrimIsTrimmed(s);
  }

  lemma TrimIsTrimmed(s: string)
    ensures IsTrimmed(Trim(s))
  {
    var t := TrimStart(s);
    TrimStartSpec(s);
    TrimEndSpec(t);
    var r := TrimEnd(t);
    if r != [] {
      assert r[0] == t[0];
    }
  }

  /** The number of whitespace characters `trimStart` drops. */
  function Leading(s: string): nat {
    |s| - |TrimStart(s)|
  }

  /** Trimming the end of a suffix of `s` leaves a slice of `s` followed by whitespace only. */
  lemma TrimEndOfSuffix(s: string, i: nat)
    requires i <= |s|
    ensures i + |TrimEnd(s[i..])| <= |s| && TrimEnd(s[i..]) == s[i..i + |TrimEnd(s[i..])|]
    ensures forall k :: i + |TrimEnd(s[i..])| <= k < |s| ==> IsSpace(s[k])
  {
    var t := s[i..];
    TrimEndSpec(t);
    forall k | i + |TrimEnd(t)| <= k < |s| ensures IsSpace(s[k]) {
      assert s[k] == t[k - i];
    }
  }

  lemma TrimOfTrimmed(s: string)
    requires IsTrimmed(s)
    ensures Trim(s) == s
  {
  }

  lemma TrimIdempotent(s: string)
    ensures Trim(Trim(s)) == Trim(s)
  {
    TrimSpec(s);
    TrimOfTrimmed(Trim(s));
  }

  // ---------------------------------------------------------------- includes

  /** `p` occurs in `s` at position `i`. */
  predicate OccursAt(s: string, p: string, i: nat) {
    i + |p| <= |s| && s[i..i + |p|] == p
  }

  /** The first index at or after `i` where `p` occurs in `s`. */
  function FindFrom(s: string, p: string, i: nat): (r: Option<nat>)
    requires i <= |s|
    decreases |s| - i
    ensures r.Some? ==> i <= r.value && r.value + |p| <= |s|
  {
    if i + |p| > |s| then None
    else if (p == [] || s[i] == p[0]) && s[i..i + |p|] == p then Some(i)
    else FindFrom(s, p, i + 1)
  }

  /** The index found is an occurrence, and no occurrence comes before it. */
  lemma {:induction false} FindFromSpec(s: string, p: string, i: nat)
    requires i <= |s|
    decreases |s| - i
    ensures FindFrom(s, p, i).Some? ==> OccursAt(s, p, FindFrom(s, p, i).value)
    ensures forall j :: i <= j && (FindFrom(s, p, i).None? || j < FindFrom(s, p, i).value) ==> !OccursAt(s, p, j)
  {
    if i + |p| <= |s| && s[i..i + |p|] != p {
      FindFromSpec(s, p, i + 1);
    }
  }

  /** `s.indexOf(p)`, as an option. */
  function Find(s: string, p: string): Option<nat> {
    FindFrom(s, p, 0)
  }

  /** `s.includes(p)`. */
  predicate Contains(s: string, p: string) {
    Find(s, p).Some?
  }

  lemma ContainsIff(s: string, p: string)
    ensures Contains(s, p) <==> exists i :: OccursAt(s, p, i)
  {
    FindFromSpec(s, p, 0);
  }

  // ---------------------------------------------------------------- case

  function LowerChar(c: char): char {
    if 'A' <= c <= 'Z' then (c as int + 32) as char else c
  }

  function UpperChar(c: char): char {
    if 'a' <= c <= 'z' then (c as int - 32) as char else c
  }

  /** `s.toLowerCase()` on ASCII letters. */
  function ToLower(s: string): (r: string)
    ensures |r| == |s| && forall i :: 0 <= i < |s| ==> r[i] == LowerChar(s[i])
  {
    seq(|s|, i requires 0 <= i < |s| => LowerChar(s[i]))
  }

  /** `s.toUpperCase()` on ASCII letters. */
  function ToUpper(s: string): (r: string)
    ensures |r| == |s| && forall i :: 0 <= i < |s| ==> r[i] == UpperChar(s[i])
  {
    seq(|s|, i requires 0 <= i < |s| => UpperChar(s[i]))
  }

  // ---------------------------------------------------------------- split on a character

  function IndexOfChar(s: string, c: char): (k: nat)
    ensures k <= |s| && (k < |s| ==> s[k] == c)
    ensures forall i :: 0 <= i < k ==> s[i] != c
  {
    if s == [] then 0 else if s[0] == c then 0 else 1 + IndexOfChar(s[1..], c)
  }

  /** `s.split(sep)` for a one-character separator. */
  function SplitOnChar(s: string, sep: char): (r: seq<string>)
    ensures |r| >= 1
    ensures forall i :: 0 <= i < |r| ==> sep !in r[i]
    decreases |s|
  {
    var k := IndexOfChar(s, sep);
    if k == |s| then [s] else [s[..k]] + SplitOnChar(s[k + 1..], sep)
  }

  function JoinWith(parts: seq<string>, sep: char): string
    requires |parts| >= 1
  {
    if |parts| == 1 then parts[0] else parts[0] + [sep] + JoinWith(parts[1..], sep)
  }

  lemma AroundIndex(s: string, k: nat)
    requires k < |s|
    ensures s[..k] + [s[k]] + s[k + 1..] == s
  {
  }

  /** Splitting on a character and joining the pieces back with it gives the string again. */
  lemma {:induction false} SplitOnCharJoin(s: string, sep: char)
    ensures JoinWith(SplitOnChar(s, sep), sep) == s
    decreases |s|
  {
    var k := IndexOfChar(s, sep);
    if k < |s| {
      var parts, rest := SplitOnChar(s, sep), SplitOnChar(s[k + 1..], sep);
      assert parts[0] == s[..k] && parts[1..] == rest;
      SplitOnCharJoin(s[k + 1..], sep);
      calc {
        JoinWith(parts, sep);
        parts[0] + [sep] + JoinWith(rest, sep);
        s[..k] + [s[k]] + s[k + 1..];
        { AroundIndex(s, k); }
        s;
      }
    }
  }

  // ---------------------------------------------------------------- split on a substring

  /** `k` is the first position at which `p` occurs in `s`. */
  predicate FirstOccurrence(s: string, p: string, k: nat) {
    OccursAt(s, p, k) && forall j: nat :: j < k ==> !OccursAt(s, p, j)
  }

  /**
   * `v` is the text that follows the occurrence of `sep` at `k`, up to the
   * next occurrence of `sep` or, when there is none, to the end of `s`.
   */
  predicate PieceAfter(s: string, sep: string, k: nat, v: string) {
    var b := k + |sep|;
    b + |v| <= |s| && v == s[b..b + |v|]
    && (b + |v| == |s| || OccursAt(s, sep, b + |v|))
    && forall j: nat :: b <= j < b + |v| ==> !OccursAt(s, sep, j)
  }

  /** An occurrence in a suffix is an occurrence in the whole string, shifted. */
  lemma OccursInSuffix(s: string, p: string, d: nat, j: nat)
    requires d <= |s|
    ensures OccursAt(s[d..], p, j) <==> OccursAt(s, p, d + j)
  {
    if d + j + |p| <= |s| {
      assert s[d..][j..j + |p|] == s[d + j..d + j + |p|];
    }
  }

  /** The text of `rest` before the first occurrence of `sep` in it, or all of `rest`. */
  function PieceFrom(rest: string, sep: string): (v: string)
    ensures v <= rest
  {
    match Find(rest, sep)
    case None => rest
    case Some(m) => rest[..m]
  }

  /** That text holds no occurrence of `sep`. */
  lemma PieceFromHasNoSep(rest: string, sep: string)
    requires sep != []
    ensures !Contains(PieceFrom(rest, sep), sep)
  {
    FindFromSpec(rest, sep, 0);
    var piece := PieceFrom(rest, sep);
    ContainsIff(piece, sep);
    var end := if Find(rest, sep).Some? then Find(rest, sep).value else |rest|;
    assert piece == rest[..end];
    forall j: nat ensures !OccursAt(piece, sep, j) {
      if j + |sep| <= |piece| {
        assert piece[j..j + |sep|] == rest[j..j + |sep|];
        assert j < end && !OccursAt(rest, sep, j);
      }
    }
  }

  /** Taken from the suffix of `s` at `k + |sep|`, that text is the piece after the occurrence at `k`. */
  lemma PieceFromIsPieceAfter(s: string, sep: string, k: nat)
    requires k + |sep| <= |s|
    ensures PieceAfter(s, sep, k, PieceFrom(s[k + |sep|..], sep))
  {
    var b := k + |sep|;
    var rest := s[b..];
    var v := PieceFrom(rest, sep);
    FindFromSpec(rest, sep, 0);
    assert v == s[b..b + |v|];
    forall j: nat | b <= j < b + |v| ensures !OccursAt(s, sep, j) {
      OccursInSuffix(s, sep, b, j - b);
    }
    if b + |v| < |s| {
      OccursInSuffix(s, sep, b, |v|);
    }
  }

  /**
   * `s.split(sep)[1]`: the text between the first and the second occurrence
   * of `sep`, or to the end when there is no second one; absent when `sep`
   * does not occur.
   */
  function SecondPiece(s: string, sep: string): (r: Option<string>)
    requires sep != []
    ensures r.Some? <==> Contains(s, sep)
    ensures r.Some? ==> !Contains(r.value, sep)
    ensures r.Some? ==> exists k: nat :: FirstOccurrence(s, sep, k) && PieceAfter(s, sep, k, r.value)
  {
    FindFromSpec(s, sep, 0);
    match Find(s, sep)
    case None => None
    case Some(k) =>
      PieceFromHasNoSep(s[k + |sep|..], sep);
      PieceFromIsPieceAfter(s, sep, k);
      assert FirstOccurrence(s, sep, k);
      Some(PieceFrom(s[k + |sep|..], sep))
  }

  // ---------------------------------------------------------------- split on /\s{2,}|\t/

  /** The length of the run of whitespace starting at `i`. */
  function SpaceRun(s: string, i: nat): (n: nat)
    requires i <= |s|
    decreases |s| - i
    ensures i + n <= |s|
  {
    if i < |s| && IsSpace(s[i]) then 1 + SpaceRun(s, i + 1) else 0
  }

  /** The run is whitespace and ends at the end of `s` or at a non-space. */
  lemma {:induction false} SpaceRunSpec(s: string, i: nat)
    requires i <= |s|
    ensures forall k :: i <= k < i + SpaceRun(s, i) ==> IsSpace(s[k])
    ensures i + SpaceRun(s, i) == |s| || !IsSpace(s[i + SpaceRun(s, i)])
    decreases |s| - i
  {
    if i < |s| && IsSpace(s[i]) {
      SpaceRunSpec(s, i + 1);
    }
  }

  /**
   * The length of the separator that `/\s{2,}|\t/` matches at `i`: the whole
   * whitespace run when it is at least two long, a single tab, or nothing.
   */
  function SepLen(s: string, i: nat): (n: nat)
    requires i <= |s|
    ensures i + n <= |s|
  {
    if i == |s| then 0
    else
      var run := SpaceRun(s, i);
      if run >= 2 then run else if s[i] == '\t' then 1 else 0
  }

  /** The first position at or after `i` where a separator matches, or `|s|`. */
  function NextSep(s: string, i: nat): (q: nat)
    requires i <= |s|
    decreases |s| - i
    ensures i <= q <= |s| && (q < |s| ==> SepLen(s, q) > 0)
  {
    if i == |s| || SepLen(s, i) > 0 then i else NextSep(s, i + 1)
  }

  /** No separator matches before the one found. */
  lemma {:induction false} NextSepFirst(s: string, i: nat)
    requires i <= |s|
    ensures forall k :: i <= k < NextSep(s, i) ==> SepLen(s, k) == 0
    decreases |s| - i
  {
    if i < |s| && SepLen(s, i) == 0 {
      NextSepFirst(s, i + 1);
    }
  }

  /** `s.split(/\s{2,}|\t/)`. */
  function SplitFields(s: string): (r: seq<string>)
    ensures |r| >= 1
    decreases |s|
  {
    var q := NextSep(s, 0);
    if q == |s| then [s] else [s[..q]] + SplitFields(s[q + SepLen(s, q)..])
  }

  /** A field holds no tab and no two adjacent whitespace characters. */
  predicate IsField(f: string) {
    (forall k :: 0 <= k < |f| ==> f[k] != '\t')
    && (forall k :: 0 <= k < |f| - 1 ==> !(IsSpace(f[k]) && IsSpace(f[k + 1])))
  }

  lemma NoSepMeansField(s: string, q: nat)
    requires q <= |s|
    requires forall k :: 0 <= k < q ==> SepLen(s, k) == 0
    ensures IsField(s[..q])
  {
    forall k | 0 <= k < q
      ensures s[k] != '\t' && (k < q - 1 ==> !(IsSpace(s[k]) && IsSpace(s[k + 1])))
    {
      assert SepLen(s, k) == 0;
      if IsSpace(s[k]) && k + 1 < |s| {
        assert SpaceRun(s, k) == 1 + SpaceRun(s, k + 1);
        assert !IsSpace(s[k + 1]);
      }
    }
  }

  /** Every piece of the split is a field: the separators are gone from it. */
  lemma {:induction false} SplitFieldsAreFields(s: string, i: nat)
    requires i < |SplitFields(s)|
    ensures IsField(SplitFields(s)[i])
    decreases |s|
  {
    var q := NextSep(s, 0);
    if q < |s| {
      var rest := s[q + SepLen(s, q)..];
      assert SplitFields(s) == [s[..q]] + SplitFields(rest);
      if i == 0 {
        NextSepFirst(s, 0);
        NoSepMeansField(s, q);
      } else {
        SplitFieldsAreFields(rest, i - 1);
      }
    } else {
      NextSepFirst(s, 0);
      NoSepMeansField(s, q);
      assert s[..q] == s;
    }
  }

  /** The separators `/\s{2,}|\t/` matched, in order, one between each two pieces of the split. */
  function Separators(s: string): seq<string>
    decreases |s|
  {
    var q := NextSep(s, 0);
    if q == |s| then [] else [s[q..q + SepLen(s, q)]] + Separators(s[q + SepLen(s, q)..])
  }

  /** The pieces with the separators put back between them. */
  function JoinFields(pieces: seq<string>, seps: seq<string>): string
    requires |seps| + 1 == |pieces|
    decreases |seps|
  {
    if seps == [] then pieces[0] else pieces[0] + seps[0] + JoinFields(pieces[1..], seps[1..])
  }

  /** A tab, or a run of at least two whitespace characters. */
  predicate IsSeparator(t: string) {
    t == ['\t'] || (|t| >= 2 && forall k :: 0 <= k < |t| ==> IsSpace(t[k]))
  }

  /** Joining a piece and a separator in front of a joined list. */
  lemma JoinFieldsCons(p: string, ps: seq<string>, t: string, ts: seq<string>)
    requires |ts| + 1 == |ps|
    ensures JoinFields([p] + ps, [t] + ts) == p + t + JoinFields(ps, ts)
  {
    assert ([p] + ps)[1..] == ps && ([t] + ts)[1..] == ts;
  }

  /** A line is rebuilt from its first piece and separator followed by a rebuilt rest. */
  lemma JoinRebuild(s: string, q: nat, n: nat, ps: seq<string>, ts: seq<string>)
    requires q + n <= |s| && |ts| + 1 == |ps| && JoinFields(ps, ts) == s[q + n..]
    ensures JoinFields([s[..q]] + ps, [s[q..q + n]] + ts) == s
  {
    JoinFieldsCons(s[..q], ps, s[q..q + n], ts);
    assert s[..q] + s[q..q + n] == s[..q + n];
    assert s[..q + n] + s[q + n..] == s;
  }

  /** One step of the split: the piece before the first separator, then the split of the rest. */
  lemma PiecesStep(s: string, q: nat, n: nat, rest: string)
    requires q == NextSep(s, 0) < |s| && n == SepLen(s, q) && rest == s[q + n..]
    ensures SplitFields(s) == [s[..q]] + SplitFields(rest)
  {
  }

  /** One step of the separators: the first separator, then the separators of the rest. */
  lemma SeparatorsStep(s: string, q: nat, n: nat, rest: string)
    requires q == NextSep(s, 0) < |s| && n == SepLen(s, q) && rest == s[q + n..]
    ensures Separators(s) == [s[q..q + n]] + Separators(rest)
  {
  }

  /** The first piece of the split is a prefix of the line. */
  lemma SplitFieldsHead(s: string)
    ensures SplitFields(s)[0] <= s
  {
  }

  /** What a matched separator is, and that the character after it is not whitespace. */
  lemma SepLenSpec(s: string, q: nat)
    requires q < |s| && SepLen(s, q) > 0
    ensures IsSeparator(s[q..q + SepLen(s, q)])
    ensures q + SepLen(s, q) == |s| || !IsSpace(s[q + SepLen(s, q)])
  {
    SpaceRunSpec(s, q);
    if SpaceRun(s, q) < 2 {
      assert s[q] == '\t';
      assert SpaceRun(s, q) == 1 + SpaceRun(s, q + 1);
    }
  }

  /**
   * There is one separator between each two pieces, and putting the
   * separators back between the pieces gives the line again.
   */
  lemma {:induction false} SplitFieldsJoin(s: string)
    ensures |Separators(s)| + 1 == |SplitFields(s)| && JoinFields(SplitFields(s), Separators(s)) == s
    decreases |s|
  {
    var q := NextSep(s, 0);
    if q < |s| {
      var n := SepLen(s, q);
      var rest := s[q + n..];
      PiecesStep(s, q, n, rest);
      SeparatorsStep(s, q, n, rest);
      SplitFieldsJoin(rest);
      JoinRebuild(s, q, n, SplitFields(rest), Separators(rest));
    } else {
      assert SplitFields(s) == [s] && Separators(s) == [];
    }
  }

  /** A matched separator starts with whitespace. */
  lemma SepStartsWithSpace(s: string, q: nat)
    requires q < |s| && SepLen(s, q) > 0
    ensures IsSpace(s[q])
  {
  }

  /** The first piece of the split is the line up to the first separator. */
  lemma SplitFieldsFirst(s: string)
    ensures SplitFields(s)[0] == s[..NextSep(s, 0)]
  {
    if NextSep(s, 0) == |s| {
      assert s[..|s|] == s;
    }
  }

  /** A line with a separator has one before its end. */
  lemma SeparatorsNonEmpty(s: string)
    requires Separators(s) != []
    ensures NextSep(s, 0) < |s|
  {
  }

  /** The piece before the first separator does not end with whitespace. */
  lemma FirstPieceEnd(s: string, q: nat)
    requires q == NextSep(s, 0) < |s|
    ensures q == 0 || !IsSpace(s[q - 1])
  {
    if q > 0 {
      NextSepFirst(s, 0);
      assert SepLen(s, q - 1) == 0;
      SepStartsWithSpace(s, q);
      assert SpaceRun(s, q) >= 1;
    }
  }

  /** A line that starts with a non-space has a non-empty first piece. */
  lemma FirstPieceNonEmpty(s: string)
    requires s != [] && !IsSpace(s[0])
    ensures SplitFields(s)[0] != []
  {
    assert SepLen(s, 0) == 0;
    assert NextSep(s, 0) >= 1;
    SplitFieldsFirst(s);
  }

  /** The `i`-th piece does not end with whitespace, and is not empty unless it is the first. */
  predicate PieceEndAt(ps: seq<string>, i: nat) {
    i < |ps| && (ps[i] == [] || !IsSpace(ps[i][|ps[i]| - 1])) && (0 < i ==> ps[i] != [])
  }

  /** Putting a piece in front shifts a non-empty such piece by one. */
  lemma PieceEndCons(p: string, ps: seq<string>, i: nat, ps': seq<string>)
    requires PieceEndAt(ps, i) && ps[i] != [] && ps' == [p] + ps
    ensures PieceEndAt(ps', i + 1)
  {
    assert ps'[i + 1] == ps[i];
  }

  /** The piece before the first separator. */
  lemma PieceEndFirst(s: string, q: nat, n: nat, rest: string)
    requires q == NextSep(s, 0) < |s| && n == SepLen(s, q) && rest == s[q + n..]
    ensures PieceEndAt(SplitFields(s), 0)
  {
    FirstPieceEnd(s, q);
    SplitFieldsFirst(s);
  }

  /** The piece between the first and the second separator. */
  lemma PieceEndSecond(s: string, q: nat, n: nat, rest: string)
    requires q == NextSep(s, 0) < |s| && n == SepLen(s, q) && rest == s[q + n..]
    requires Separators(rest) != [] && PieceEndAt(SplitFields(rest), 0)
    ensures PieceEndAt(SplitFields(s), 1)
  {
    SeparatorsNonEmpty(rest);
    SepLenSpec(s, q);
    assert rest[0] == s[q + n];
    FirstPieceNonEmpty(rest);
    PiecesStep(s, q, n, rest);
    PieceEndCons(s[..q], SplitFields(rest), 0, SplitFields(s));
  }

  /** A later piece of the rest is a later piece of the line. */
  lemma PieceEndLater(s: string, q: nat, n: nat, rest: string, i: nat)
    requires q == NextSep(s, 0) < |s| && n == SepLen(s, q) && rest == s[q + n..]
    requires 0 < i && PieceEndAt(SplitFields(rest), i)
    ensures PieceEndAt(SplitFields(s), i + 1)
  {
    PiecesStep(s, q, n, rest);
    PieceEndCons(s[..q], SplitFields(rest), i, SplitFields(s));
  }

  /**
   * The piece before the `i`-th separator does not end with whitespace,
   * and every piece between two separators is non-empty.
   */
  lemma {:induction false} PieceBeforeSeparator(s: string, i: nat)
    requires i < |Separators(s)|
    ensures PieceEndAt(SplitFields(s), i)
    decreases |s|
  {
    SeparatorsNonEmpty(s);
    var q := NextSep(s, 0);
    var n := SepLen(s, q);
    var rest := s[q + n..];
    if i == 0 {
      PieceEndFirst(s, q, n, rest);
    } else {
      SeparatorsStep(s, q, n, rest);
      PieceBeforeSeparator(rest, i - 1);
      if i == 1 {
        PieceEndSecond(s, q, n, rest);
      } else {
        PieceEndLater(s, q, n, rest, i - 1);
      }
    }
  }

  /** The `i`-th separator is a tab or a whitespace run of at least two, and the piece after it does not start with whitespace. */
  predicate MaximalAt(ps: seq<string>, ts: seq<string>, i: nat) {
    i < |ts| && i + 1 < |ps| && IsSeparator(ts[i]) && (ps[i + 1] == [] || !IsSpace(ps[i + 1][0]))
  }

  /** Putting a piece and a separator in front shifts a maximal separator by one. */
  lemma MaximalCons(p: string, ps: seq<string>, t: string, ts: seq<string>, i: nat, ps': seq<string>, ts': seq<string>)
    requires MaximalAt(ps, ts, i) && ps' == [p] + ps && ts' == [t] + ts
    ensures MaximalAt(ps', ts', i + 1)
  {
    assert ts'[i + 1] == ts[i] && ps'[i + 2] == ps[i + 1];
  }

  /** The first separator of a line is maximal. */
  lemma MaximalHead(s: string, q: nat, n: nat, ps: seq<string>, ts: seq<string>, ps': seq<string>, ts': seq<string>)
    requires q < |s| && n == SepLen(s, q) > 0 && ps != [] && ps[0] <= s[q + n..]
    requires ps' == [s[..q]] + ps && ts' == [s[q..q + n]] + ts
    ensures MaximalAt(ps', ts', 0)
  {
    SepLenSpec(s, q);
    if ps[0] != [] {
      assert ps[0][0] == s[q + n];
    }
  }

  /** The first separator of a line is maximal. */
  lemma MaximalFirst(s: string, q: nat, n: nat, rest: string)
    requires q == NextSep(s, 0) < |s| && n == SepLen(s, q) && rest == s[q + n..]
    ensures MaximalAt(SplitFields(s), Separators(s), 0)
  {
    PiecesStep(s, q, n, rest);
    SeparatorsStep(s, q, n, rest);
    SplitFieldsHead(rest);
    MaximalHead(s, q, n, SplitFields(rest), Separators(rest), SplitFields(s), Separators(s));
  }

  /** A later separator is maximal when it is maximal in the rest of the line. */
  lemma MaximalLater(s: string, q: nat, n: nat, rest: string, i: nat)
    requires q == NextSep(s, 0) < |s| && n == SepLen(s, q) && rest == s[q + n..]
    requires MaximalAt(SplitFields(rest), Separators(rest), i)
    ensures MaximalAt(SplitFields(s), Separators(s), i + 1)
  {
    PiecesStep(s, q, n, rest);
    SeparatorsStep(s, q, n, rest);
    MaximalCons(s[..q], SplitFields(rest), s[q..q + n], Separators(rest), i, SplitFields(s), Separators(s));
  }

  /**
   * Every separator is a tab or a whitespace run of at least two, and it is
   * maximal: the piece after it does not start with whitespace.
   */
  lemma {:induction false} SeparatorsAreMaximal(s: string, i: nat)
    requires i < |Separators(s)|
    ensures IsSeparator(Separators(s)[i])
    ensures i + 1 < |SplitFields(s)| && (SplitFields(s)[i + 1] == [] || !IsSpace(SplitFields(s)[i + 1][0]))
    ensures SplitFields(s)[i] == [] || !IsSpace(SplitFields(s)[i][|SplitFields(s)[i]| - 1])
    ensures 0 < i ==> SplitFields(s)[i] != []
    decreases |s|
  {
    PieceBeforeSeparator(s, i);
    var q := NextSep(s, 0);
    assert q < |s|;
    var n := SepLen(s, q);
    var rest := s[q + n..];
    if i == 0 {
      MaximalFirst(s, q, n, rest);
    } else {
      SeparatorsStep(s, q, n, rest);
      SeparatorsAreMaximal(rest, i - 1);
      MaximalLater(s, q, n, rest, i - 1);
    }
  }

  /** A string that is already a field is not split at all. */
  lemma FieldIsNotSplit(s: string)
    requires IsField(s)
    ensures SplitFields(s) == [s]
  {
    forall k | 0 <= k < |s| ensures SepLen(s, k) == 0 {
      if IsSpace(s[k]) {
        assert k + 1 < |s| ==> !IsSpace(s[k + 1]);
        assert SpaceRun(s, k + 1) == 0;
      }
    }
  }

  // ---------------------------------------------------------------- numbers

  /** The length of the leading run of decimal digits. */
  function DigitsLen(s: string): (n: nat)
    ensures n <= |s|
  {
    if s != [] && IsDigit(s[0]) then 1 + DigitsLen(s[1..]) else 0
  }

  /** The run is made of digits and stops at the first non-digit. */
  lemma {:induction false} DigitsLenSpec(s: string)
    ensures DigitsLen(s) < |s| ==> !IsDigit(s[DigitsLen(s)])
    ensures forall k :: 0 <= k < DigitsLen(s) ==> IsDigit(s[k])
    decreases |s|
  {
    if s != [] && IsDigit(s[0]) {
      DigitsLenSpec(s[1..]);
      assert forall k :: 1 <= k < |s| ==> s[k] == s[1..][k - 1];
    }
  }

  /** The value of a digit; only ever applied to digits. */
  function DigitValue(c: char): (n: nat)
    ensures IsDigit(c) ==> n == c as int - '0' as int
    ensures n < 10
  {
    if IsDigit(c) then c as int - '0' as int else 0
  }

  /** The value of a string of decimal digits. */
  function DigitsValue(d: string): nat
  {
    if d == [] then 0
    else 10 * DigitsValue(d[..|d| - 1]) + DigitValue(d[|d| - 1])
  }

  function Pow10(n: nat): (r: nat)
    ensures r >= 1
  {
    if n == 0 then 1 else 10 * Pow10(n - 1)
  }

  /** How far a numeric prefix reaches and what it is worth; `len == 0` when there is none. */
  datatype Scan = Scan(len: nat, value: real)

  /** `digits [ "." digits ]` or `"." digits`, with at least one digit. */
  function UnsignedDecimalPrefix(s: string): (r: Scan)
    ensures r.len <= |s|
    ensures r.len == 0 ==> r.value == 0.0
  {
    var a := DigitsLen(s);
    var whole := DigitsValue(s[..a]) as real;
    if a < |s| && s[a] == '.' then
      var f := s[a + 1..];
      var b := DigitsLen(f);
      if a + b == 0 then Scan(0, 0.0)
      else Scan(a + 1 + b, whole + DigitsValue(f[..b]) as real / Pow10(b) as real)
    else if a == 0 then Scan(0, 0.0)
    else Scan(a, whole)
  }

  /** An optional sign followed by an unsigned decimal. */
  function SignedDecimalPrefix(s: string): (r: Scan)
    ensures r.len <= |s|
    ensures r.len == 0 ==> r.value == 0.0
  {
    if s != [] && (s[0] == '+' || s[0] == '-') then
      var u := UnsignedDecimalPrefix(s[1..]);
      if u.len == 0 then Scan(0, 0.0)
      else Scan(u.len + 1, if s[0] == '-' then -u.value else u.value)
    else UnsignedDecimalPrefix(s)
  }

  /** `parseFloat(s) || 0`: the longest decimal prefix after leading whitespace, 0 when there is none. */
  function ParseFloatOr0(s: string): real {
    SignedDecimalPrefix(TrimStart(s)).value
  }

  /** `parseInt(s) || 0`: the leading (signed) run of digits after whitespace, 0 when there is none. */
  function ParseIntOr0(s: string): int {
    var t := TrimStart(s);
    if t != [] && (t[0] == '+' || t[0] == '-') then
      var u := t[1..];
      var n: int := DigitsValue(u[..DigitsLen(u)]);
      if t[0] == '-' then -n else n
    else
      DigitsValue(t[..DigitsLen(t)])
  }

  /** Without a digit there is no numeric prefix. */
  lemma NoDigitNoPrefix(s: string)
    requires forall k :: 0 <= k < |s| ==> !IsDigit(s[k])
    ensures SignedDecimalPrefix(s) == Scan(0, 0.0)
  {
    DigitsLenSpec(s);
    if s != [] {
      DigitsLenSpec(s[1..]);
      if 1 < |s| {
        DigitsLenSpec(s[2..]);
      }
    }
    if |s| > 1 && s[0] == '.' {
      DigitsLenSpec(s[1..]);
    }
  }

  /** A string with no digit in it parses to 0 under both `parseFloat` and `parseInt` (the `|| 0` fallback). */
  lemma NoDigitParsesToZero(s: string)
    requires forall k :: 0 <= k < |s| ==> !IsDigit(s[k])
    ensures ParseFloatOr0(s) == 0.0 && ParseIntOr0(s) == 0
  {
    var t := TrimStart(s);
    TrimStartSpec(s);
    assert forall k :: 0 <= k < |t| ==> !IsDigit(t[k]) by {
      forall k | 0 <= k < |t| ensures !IsDigit(t[k]) {
        assert t[k] == s[|s| - |t| + k];
      }
    }
    NoDigitNoPrefix(t);
    if t != [] && (t[0] == '+' || t[0] == '-') {
      var u := t[1..];
      assert DigitsLen(u) == 0 by {
        DigitsLenSpec(u);
        assert u != [] ==> u[0] == t[1];
      }
      assert u[..0] == [];
    } else {
      DigitsLenSpec(t);
      assert t[..0] == [];
    }
  }

  lemma DigitIsNotSpace(c: char)
    requires IsDigit(c)
    ensures !IsSpace(c)
  {
  }

  /** JavaScript numbers: a finite value or NaN. */
  datatype Number = Real(v: real) | NaN {
    /** `n > 0`, which is false for NaN. */
    predicate IsPositive() { Real? && v > 0.0 }
  }

  /**
   * `Number(s)` on a string: whitespace-only is 0, a string that is exactly a
   * signed decimal is its value, anything else is NaN.
   */
  function StringToNumber(s: string): Number {
    var t := Trim(s);
    if t == [] then Real(0.0)
    else
      var p := SignedDecimalPrefix(t);
      if p.len == |t| then Real(p.value) else NaN
  }

  /** A string of digits, such as an item number read as text, converts to its value. */
  lemma DigitStringToNumber(d: string)
    requires d != [] && forall k :: 0 <= k < |d| ==> IsDigit(d[k])
    ensures StringToNumber(d) == Real(DigitsValue(d) as real)
  {
    DigitIsNotSpace(d[0]);
    DigitIsNotSpace(d[|d| - 1]);
    TrimOfTrimmed(d);
    DigitsArePrefix(d);
  }

  /** A digit string is its own numeric prefix. */
  lemma DigitsArePrefix(d: string)
    requires d != [] && forall k :: 0 <= k < |d| ==> IsDigit(d[k])
    ensures SignedDecimalPrefix(d) == Scan(|d|, DigitsValue(d) as real)
  {
    DigitsLenAll(d);
    assert d[..|d|] == d;
    assert !(d[0] == '+' || d[0] == '-');
    assert UnsignedDecimalPrefix(d) == Scan(|d|, DigitsValue(d) as real);
  }

  lemma {:induction false} DigitsLenAll(d: string)
    requires forall k :: 0 <= k < |d| ==> IsDigit(d[k])
    ensures DigitsLen(d) == |d|
  {
    if d != [] {
      DigitsLenAll(d[1..]);
    }
  }
}
