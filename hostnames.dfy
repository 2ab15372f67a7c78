/** The host-name and address text handling of the node-table join: `normalize_hostname`,
    `str.split('.')`, and the two regular expressions that find and recognise IPv4 addresses.
    Digits and word characters are the ASCII ones. */
module HostNames {
  import opened Wrappers

  /** normalize_hostname: both of its branches return `hostname.rstrip('.')`. */
  function NormalizeHostname(h: string): (r: string)
    ensures |r| <= |h| && r == h[..|r|]
    ensures r == [] || r[|r| - 1] != '.'
    ensures forall i :: |r| <= i < |h| ==> h[i] == '.'
    decreases |h|
  {
    if h != [] && h[|h| - 1] == '.' then NormalizeHostname(h[..|h| - 1]) else h
  }

  /** Normalising a normalised name changes nothing. */
  lemma NormalizeHostnameIdempotent(h: string)
    ensures NormalizeHostname(NormalizeHostname(h)) == NormalizeHostname(h)
  {
    var r := NormalizeHostname(h);
    assert r == [] || r[|r| - 1] != '.';
  }

  /** The name with a run of trailing dots added normalises back to the name. */
  lemma {:induction false} NormalizeDropsTrailingDots(name: string, dots: nat)
    requires name == [] || name[|name| - 1] != '.'
    ensures NormalizeHostname(name + seq(dots, _ => '.')) == name
    decreases dots
  {
    if dots > 0 {
      var s := name + seq(dots, _ => '.');
      assert s[..|s| - 1] == name + seq(dots - 1, _ => '.');
      NormalizeDropsTrailingDots(name, dots - 1);
    } else {
      assert name + seq(0, _ => '.') == name;
    }
  }

  /** str.split(sep) with an explicit separator: the texts between separators, empty ones included. */
  function Split(s: string, sep: char): (parts: seq<string>)
    ensures |parts| >= 1
    decreases |s|
  {
    if s == [] then [""]
    else
      var rest := Split(s[1..], sep);
      if s[0] == sep then [""] + rest else [[s[0]] + rest[0]] + rest[1..]
  }

  /** No piece of a split holds the separator. */
  lemma {:induction false} SplitPiecesLackSep(s: string, sep: char)
    ensures forall i :: 0 <= i < |Split(s, sep)| ==> sep !in Split(s, sep)[i]
    decreases |s|
  {
    if s != [] {
      var rest := Split(s[1..], sep);
      SplitPiecesLackSep(s[1..], sep);
      if s[0] != sep {
        var parts := Split(s, sep);
        assert forall i :: 1 <= i < |parts| ==> parts[i] == rest[i];
        assert sep !in rest[0];
        assert sep !in [s[0]] + rest[0];
      }
    }
  }

  /** sep.join(parts). */
  function Join(parts: seq<string>, sep: char): string
    requires |parts| >= 1
    decreases |parts|
  {
    if |parts| == 1 then parts[0] else parts[0] + [sep] + Join(parts[1..], sep)
  }

  /** Gluing a character to the first piece glues it to the front of the joined text. */
  lemma JoinGlueFirst(c: char, rest: seq<string>, sep: char)
    requires |rest| >= 1
    ensures Join([[c] + rest[0]] + rest[1..], sep) == [c] + Join(rest, sep)
  {
    var parts := [[c] + rest[0]] + rest[1..];
    if |rest| > 1 {
      assert parts[1..] == rest[1..];
    }
  }

  /** Joining the pieces of a split gives the text back. */
  lemma {:induction false} JoinSplit(s: string, sep: char)
    ensures Join(Split(s, sep), sep) == s
    decreases |s|
  {
    if s != [] {
      var rest := Split(s[1..], sep);
      JoinSplit(s[1..], sep);
      if s[0] == sep {
        assert Split(s, sep)[1..] == rest;
      } else {
        JoinGlueFirst(s[0], rest, sep);
      }
      assert [s[0]] + s[1..] == s;
    }
  }

  /** A text without the separator, followed by more text, splits as one piece glued to the first. */
  lemma {:induction false} SplitPrefix(a: string, t: string, sep: char)
    requires sep !in a
    ensures Split(a + t, sep) == [a + Split(t, sep)[0]] + Split(t, sep)[1..]
    decreases |a|
  {
    if a != [] {
      SplitPrefix(a[1..], t, sep);
      assert (a + t)[1..] == a[1..] + t;
      assert [a[0]] + (a[1..] + Split(t, sep)[0]) == a + Split(t, sep)[0];
    } else {
      assert a + t == t;
      assert a + Split(t, sep)[0] == Split(t, sep)[0];
      assert [a + Split(t, sep)[0]] + Split(t, sep)[1..] == Split(t, sep);
    }
  }

  /** Splitting pieces that hold no separator, once joined, gives the pieces back. */
  lemma {:induction false} SplitJoin(parts: seq<string>, sep: char)
    requires |parts| >= 1
    requires forall i :: 0 <= i < |parts| ==> sep !in parts[i]
    ensures Split(Join(parts, sep), sep) == parts
    decreases |parts|
  {
    if |parts| == 1 {
      SplitPrefix(parts[0], "", sep);
      assert parts[0] + "" == parts[0];
    } else {
      var tail := Join(parts[1..], sep);
      SplitJoin(parts[1..], sep);
      SplitPrefix(parts[0], [sep] + tail, sep);
      assert parts[0] + [sep] + tail == parts[0] + ([sep] + tail);
      assert ([sep] + tail)[1..] == tail;
      assert parts[0] + "" == parts[0];
      assert [parts[0]] + parts[1..] == parts;
    }
  }

  /** `hostname.split('.')[0]`: the grouping key of a host. */
  function ShortName(h: string): string
  {
    Split(h, '.')[0]
  }

  /** The short name is the text before the first dot, or the whole name when it has none. */
  lemma ShortNameMeans(h: string)
    ensures '.' !in ShortName(h)
    ensures |ShortName(h)| <= |h| && h[..|ShortName(h)|] == ShortName(h)
    ensures |ShortName(h)| == |h| || h[|ShortName(h)|] == '.'
  {
    var parts := Split(h, '.');
    JoinSplit(h, '.');
    SplitPiecesLackSep(h, '.');
    if |parts| > 1 {
      assert h == parts[0] + ['.'] + Join(parts[1..], '.');
      assert h[|parts[0]|] == '.';
    }
    assert h[..|parts[0]|] == parts[0];
  }

  /** `hostname if '.' in hostname else short_hostname` is always the host name itself:
      without a dot the short name is the whole name. */
  lemma CanonicalIsHostname(h: string)
    ensures (if '.' in h then h else ShortName(h)) == h
  {
    ShortNameMeans(h);
    if |ShortName(h)| < |h| {
      assert h[|ShortName(h)|] in h;
    } else {
      assert h[..|h|] == h;
    }
  }

  predicate IsDigit(c: char) { '0' <= c <= '9' }

  /** `\w` on ASCII text. */
  predicate IsWordChar(c: char) { IsDigit(c) || 'a' <= c <= 'z' || 'A' <= c <= 'Z' || c == '_' }

  /** s[j..e] is one group of the pattern: digits, at least one, and at most three when
      `short` holds. */
  predicate GroupIn(s: string, j: int, e: int, short: bool)
  {
    0 <= j < e <= |s| && (short ==> e - j <= 3) && forall k {:trigger IsDigit(s[k])} :: j <= k < e ==> IsDigit(s[k])
  }

  /** s[j..e] is exactly `count` dot-separated groups: one group, or a group, a dot and one
      group fewer. Any dot may be tried, as a backtracking matcher does. */
  predicate DottedIn(s: string, j: int, e: int, count: nat, short: bool)
    decreases count
  {
    if count <= 1 then count == 1 && GroupIn(s, j, e, short)
    else 0 <= j && e <= |s| && exists m {:trigger GroupIn(s, j, m, short)} :: j < m < e && s[m] == '.' && GroupIn(s, j, m, short) && DottedIn(s, m + 1, e, count - 1, short)
  }

  /** A dotted quad: four dot-separated groups of one to three digits. */
  predicate IsDottedQuad(t: string) { DottedIn(t, 0, |t|, 4, true) }

  /** `\b` before position i, where a digit follows. */
  predicate BoundaryBefore(s: string, i: int)
  {
    i == 0 || (0 < i <= |s| && !IsWordChar(s[i - 1]))
  }

  /** `\b` after position e, where a digit precedes. */
  predicate BoundaryAfter(s: string, e: int)
  {
    e == |s| || (0 <= e < |s| && !IsWordChar(s[e]))
  }

  /** `\b(?:\d{1,3}\.){3}\d{1,3}\b` matches exactly s[i..e]. */
  predicate QuadMatch(s: string, i: int, e: int)
  {
    0 <= i <= e <= |s| && DottedIn(s, i, e, 4, true) && BoundaryBefore(s, i) && BoundaryAfter(s, e)
  }

  /** Dotted groups inside a text are dotted groups of the slice they span. */
  lemma {:induction false} DottedInSlice(s: string, j: int, e: int, count: nat, short: bool, lo: int)
    requires 0 <= lo <= j <= e <= |s|
    requires DottedIn(s, j, e, count, short) == true
    ensures DottedIn(s[lo..e], j - lo, e - lo, count, short) == true
    decreases count
  {
    var t := s[lo..e];
    if count <= 1 {
      assert forall k :: j - lo <= k < e - lo ==> t[k] == s[k + lo];
    } else {
      var m :| j < m < e && s[m] == '.' && GroupIn(s, j, m, short) && DottedIn(s, m + 1, e, count - 1, short);
      DottedInSlice(s, m + 1, e, count - 1, short, lo);
      assert forall k :: j - lo <= k < m - lo ==> t[k] == s[k + lo];
      assert t[m - lo] == '.';
      assert GroupIn(t, j - lo, m - lo, short);
    }
  }

  /** The length of the run of digits starting at j. */
  function DigitRun(s: string, j: nat): (n: nat)
    requires j <= |s|
    ensures j + n <= |s|
    ensures j + n == |s| || !IsDigit(s[j + n])
    decreases |s| - j
  {
    if j < |s| && IsDigit(s[j]) then 1 + DigitRun(s, j + 1) else 0
  }

  /** The run DigitRun measures is digits. */
  lemma {:induction false} DigitRunDigits(s: string, j: nat)
    requires j <= |s|
    ensures forall k :: j <= k < j + DigitRun(s, j) ==> IsDigit(s[k])
    decreases |s| - j
  {
    if j < |s| && IsDigit(s[j]) {
      DigitRunDigits(s, j + 1);
    }
  }

  /** A run of n digits that is not followed by a digit is the run DigitRun finds. */
  lemma {:induction false} DigitRunExact(s: string, j: nat, n: nat)
    requires j + n <= |s|
    requires forall k :: j <= k < j + n ==> IsDigit(s[k])
    requires j + n == |s| || !IsDigit(s[j + n])
    ensures DigitRun(s, j) == n
    decreases n
  {
    if n > 0 {
      DigitRunExact(s, j + 1, n - 1);
    }
  }

  /** The regular-expression engine on `count` dot-separated groups of digits from j
      (greedy `\d{1,3}` when `short` holds, `\d+` otherwise): where the last group ends.
      A digit group followed by a digit cannot be followed by the dot, so backtracking
      into a shorter group never helps and the maximal run is the only candidate. */
  function Groups(s: string, j: nat, count: nat, short: bool): (r: Option<nat>)
    requires j <= |s| && count >= 1
    ensures r.Some? ==> j < r.value <= |s| && (r.value == |s| || !IsDigit(s[r.value]))
    decreases count
  {
    var n := DigitRun(s, j);
    if n < 1 || (short && n > 3) then None
    else if count == 1 then Some(j + n)
    else if j + n < |s| && s[j + n] == '.' then Groups(s, j + n + 1, count - 1, short)
    else None
  }

  /** Where Groups succeeds, the text it passed over is dotted groups. */
  lemma {:induction false} GroupsSound(s: string, j: nat, e: nat, count: nat, short: bool)
    requires j <= |s| && count >= 1 && Groups(s, j, count, short) == Some(e)
    ensures j < e <= |s| && DottedIn(s, j, e, count, short) == true
    decreases count
  {
    var n := DigitRun(s, j);
    DigitRunDigits(s, j);
    if count == 1 {
      assert e == j + n;
    } else {
      assert j + n < |s| && s[j + n] == '.';
      assert Groups(s, j + n + 1, count - 1, short) == Some(e);
      GroupsSound(s, j + n + 1, e, count - 1, short);
      assert GroupIn(s, j, j + n, short);
    }
  }

  /** Dotted groups ending where no digit follows are what Groups finds. */
  lemma {:induction false} GroupsComplete(s: string, j: nat, e: nat, count: nat, short: bool)
    requires e <= |s| && count >= 1
    requires DottedIn(s, j, e, count, short) == true
    requires e == |s| || !IsDigit(s[e])
    ensures Groups(s, j, count, short) == Some(e)
    decreases count
  {
    if count == 1 {
      DigitRunExact(s, j, e - j);
    } else {
      var m :| j < m < e && s[m] == '.' && GroupIn(s, j, m, short) && DottedIn(s, m + 1, e, count - 1, short);
      GroupsComplete(s, m + 1, e, count - 1, short);
      GroupsStep(s, j, m, e, count, short);
    }
  }

  /** A group ending at a dot, in front of what Groups finds further on, is where Groups
      goes on from. */
  lemma GroupsStep(s: string, j: nat, m: nat, e: nat, count: nat, short: bool)
    requires m < |s| && s[m] == '.' && count >= 2
    requires GroupIn(s, j, m, short)
    requires Groups(s, m + 1, count - 1, short) == Some(e)
    ensures Groups(s, j, count, short) == Some(e)
  {
    DigitRunExact(s, j, m - j);
  }

  /** The match of the address pattern that starts at i, if any. */
  function QuadAt(s: string, i: nat): (r: Option<nat>)
    requires i <= |s|
    ensures r.Some? ==> i < r.value <= |s|
  {
    if !BoundaryBefore(s, i) then None
    else match Groups(s, i, 4, true)
      case None => None
      case Some(e) => if BoundaryAfter(s, e) then Some(e) else None
  }

  /** What QuadAt finds is a match of the pattern. */
  lemma QuadAtSound(s: string, i: nat, e: nat)
    requires i <= |s| && QuadAt(s, i) == Some(e)
    ensures QuadMatch(s, i, e)
  {
    GroupsSound(s, i, e, 4, true);
  }

  /** Every match of the pattern starting at i is what QuadAt finds. */
  lemma QuadAtComplete(s: string, i: nat, e: nat)
    requires QuadMatch(s, i, e)
    ensures QuadAt(s, i) == Some(e)
  {
    GroupsComplete(s, i, e, 4, true);
  }

  /** QuadAt finds exactly the matches of the pattern that start at i. */
  lemma QuadAtMeans(s: string, i: nat, e: nat)
    requires i <= |s|
    ensures QuadAt(s, i) == Some(e) <==> QuadMatch(s, i, e)
  {
    if QuadAt(s, i) == Some(e) {
      QuadAtSound(s, i, e);
    }
    if QuadMatch(s, i, e) {
      QuadAtComplete(s, i, e);
    }
  }

  /** re.search scanning from i: the leftmost start with a match, and its end. */
  function SearchFrom(s: string, i: nat): (r: Option<(nat, nat)>)
    requires i <= |s|
    ensures r.Some? ==> i <= r.value.0 < r.value.1 <= |s| && QuadAt(s, r.value.0) == Some(r.value.1)
    ensures r.Some? ==> forall j :: i <= j < r.value.0 ==> QuadAt(s, j).None?
    ensures r.None? ==> forall j :: i <= j <= |s| ==> QuadAt(s, j).None?
    decreases |s| - i
  {
    match QuadAt(s, i)
    case Some(e) => Some((i, e))
    case None => if i == |s| then None else SearchFrom(s, i + 1)
  }

  /** extract_ip: the first address in the text, or the text unchanged when it has none. */
  function ExtractIp(s: string): string
  {
    match SearchFrom(s, 0)
    case Some((i, e)) => s[i..e]
    case None => s
  }

  /** The search stops at the first start where QuadAt succeeds. */
  lemma SearchFindsFirst(s: string, i: nat, e: nat)
    requires i <= |s| && QuadAt(s, i) == Some(e)
    requires forall j :: 0 <= j < i ==> QuadAt(s, j).None?
    ensures SearchFrom(s, 0) == Some((i, e))
  {
    match SearchFrom(s, 0)
    case Some((i', e')) =>
      if i' != i {
        assert false;
      }
    case None =>
      assert false;
  }

  /** Where no match starts at j, QuadAt fails there. */
  lemma NoMatchNoQuad(s: string, j: nat)
    requires j <= |s|
    requires forall f :: !QuadMatch(s, j, f)
    ensures QuadAt(s, j).None?
  {
    match QuadAt(s, j)
    case Some(f) =>
      QuadAtSound(s, j, f);
      assert false;
    case None =>
  }

  /** The leftmost match of the address pattern is what extract_ip returns. */
  lemma ExtractIpFindsFirst(s: string, i: nat, e: nat)
    requires QuadMatch(s, i, e)
    requires forall j, f :: 0 <= j < i ==> !QuadMatch(s, j, f)
    ensures ExtractIp(s) == s[i..e]
  {
    QuadAtComplete(s, i, e);
    forall j | 0 <= j < i
      ensures QuadAt(s, j).None?
    {
      NoMatchNoQuad(s, j);
    }
    SearchFindsFirst(s, i, e);
  }

  /** Without a match, extract_ip returns the text unchanged. */
  lemma ExtractIpWithoutMatch(s: string)
    requires forall i, e :: !QuadMatch(s, i, e)
    ensures ExtractIp(s) == s
  {
    match SearchFrom(s, 0)
    case Some((i, e)) =>
      QuadAtSound(s, i, e);
      assert false;
    case None =>
  }

  /** What the search finds at i is a dotted quad. */
  lemma MatchedQuad(s: string, i: nat, e: nat)
    requires i <= |s| && QuadAt(s, i) == Some(e)
    ensures IsDottedQuad(s[i..e])
  {
    GroupsSound(s, i, e, 4, true);
    QuadSlice(s, i, e);
  }

  /** Four groups spanning s[i..e] make that slice a dotted quad. */
  lemma QuadSlice(s: string, i: nat, e: nat)
    requires i <= e <= |s| && DottedIn(s, i, e, 4, true) == true
    ensures IsDottedQuad(s[i..e])
  {
    DottedInSlice(s, i, e, 4, true, i);
    assert |s[i..e]| == e - i;
  }

  /** A dotted quad on its own is its own address. */
  lemma QuadIsOwnAddress(r: string)
    requires IsDottedQuad(r)
    ensures ExtractIp(r) == r
  {
    GroupsComplete(r, 0, |r|, 4, true);
    assert QuadAt(r, 0) == Some(|r|);
    assert SearchFrom(r, 0) == Some((0, |r|));
    assert r[0..|r|] == r;
  }

  /** extract_ip returns the input or a dotted quad. */
  lemma ExtractIpShape(s: string)
    ensures ExtractIp(s) == s || IsDottedQuad(ExtractIp(s))
  {
    match SearchFrom(s, 0)
    case Some((i, e)) =>
      MatchedQuad(s, i, e);
    case None =>
  }

  /** Extracting the address from an extracted address changes nothing. */
  lemma ExtractIpIdempotent(s: string)
    ensures ExtractIp(ExtractIp(s)) == ExtractIp(s)
  {
    match SearchFrom(s, 0)
    case Some((i, e)) =>
      MatchedQuad(s, i, e);
      QuadIsOwnAddress(s[i..e]);
    case None =>
  }

  /** `re.match(r'\d+\.\d+\.\d+\.\d+', ip)`: the text starts with four dot-separated digit groups. */
  predicate LooksLikeIp(s: string)
  {
    Groups(s, 0, 4, false).Some?
  }

  /** Greedy short groups are also greedy unbounded groups. */
  lemma {:induction false} ShortGroupsAreGroups(s: string, j: nat, count: nat)
    requires j <= |s| && count >= 1 && Groups(s, j, count, true).Some?
    ensures Groups(s, j, count, false) == Groups(s, j, count, true)
    decreases count
  {
    if count > 1 {
      var n := DigitRun(s, j);
      ShortGroupsAreGroups(s, j + n + 1, count - 1);
    }
  }

  /** An address extract_ip found passes the dotted-quad test the merge applies to it. */
  lemma ExtractedLooksLikeIp(s: string)
    requires ExtractIp(s) != s
    ensures LooksLikeIp(ExtractIp(s))
  {
    match SearchFrom(s, 0)
    case Some((i, e)) =>
      MatchedQuad(s, i, e);
      var r := s[i..e];
      GroupsComplete(r, 0, |r|, 4, true);
      ShortGroupsAreGroups(r, 0, 4);
    case None =>
  }
}
