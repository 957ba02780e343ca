/** The parts of Go's `strings` package the core relies on, over byte strings.
    A Go string is a sequence of bytes; here each `char` of a Dafny `string` stands
    for one byte, so `|s|` is Go's `len(s)` and multi-byte UTF-8 characters are
    written out byte by byte. Whitespace is ASCII whitespace. */
module GoStrings {
  import opened Wrappers

  /** unicode.IsSpace restricted to single bytes, as a cut set: '\t', '\n', '\v',
      '\f', '\r', ' '. */
  const Whitespace: set<char> := {' ', '\t', '\n', '\r', '\U{0B}', '\U{0C}'}

  predicate IsSpace(c: char) {
    c in Whitespace
  }

  /** strings.TrimLeft: drop the longest prefix of bytes from `cut`. */
  function TrimLeft(s: string, cut: set<char>): (r: string)
    ensures |r| <= |s|
    ensures forall i :: 0 <= i < |s| - |r| ==> s[i] in cut
    ensures r == [] || r[0] !in cut
    decreases |s|
  {
    if |s| > 0 && s[0] in cut then TrimLeft(s[1..], cut) else s
  }

  /** strings.TrimRight: drop the longest suffix of bytes from `cut`. */
  function TrimRight(s: string, cut: set<char>): (r: string)
    ensures |r| <= |s| && forall i :: 0 <= i < |r| ==> r[i] == s[i]
    ensures forall i :: |r| <= i < |s| ==> s[i] in cut
    ensures r == [] || r[|r| - 1] !in cut
    decreases |s|
  {
    if |s| > 0 && s[|s| - 1] in cut then TrimRight(s[..|s| - 1], cut) else s
  }

  /** Neither end of `t` is a byte of `cut`. */
  predicate TrimmedOf(t: string, cut: set<char>) {
    t == [] || (t[0] !in cut && t[|t| - 1] !in cut)
  }

  /** strings.Trim. */
  function Trim(s: string, cut: set<char>): (r: string)
    ensures TrimmedOf(r, cut)
    ensures |r| <= |s|
  {
    TrimRight(TrimLeft(s, cut), cut)
  }

  predicate Trimmed(t: string) {
    TrimmedOf(t, Whitespace)
  }

  /** strings.TrimSpace. */
  function TrimSpace(s: string): (r: string)
    ensures Trimmed(r) && |r| <= |s|
  {
    Trim(s, Whitespace)
  }

  /** Trimming an already trimmed string changes nothing. */
  lemma TrimSpaceOfTrimmed(t: string)
    requires Trimmed(t)
    ensures TrimSpace(t) == t
  {
  }

  predicate HasPrefix(s: string, p: string) {
    |p| <= |s| && s[..|p|] == p
  }

  predicate HasSuffix(s: string, p: string) {
    |p| <= |s| && s[|s| - |p|..] == p
  }

  /** strings.TrimPrefix: removes `p` once if `s` starts with it. */
  function TrimPrefix(s: string, p: string): (r: string)
    ensures HasPrefix(s, p) ==> p + r == s
    ensures !HasPrefix(s, p) ==> r == s
  {
    if HasPrefix(s, p) then s[|p|..] else s
  }

  /** strings.TrimSuffix: removes `p` once if `s` ends with it. */
  function TrimSuffix(s: string, p: string): (r: string)
    ensures HasSuffix(s, p) ==> r + p == s
    ensures !HasSuffix(s, p) ==> r == s
  {
    if HasSuffix(s, p) then s[..|s| - |p|] else s
  }

  predicate OccursAt(s: string, sub: string, i: int) {
    0 <= i && i + |sub| <= |s| && s[i..i + |sub|] == sub
  }

  /** strings.Index: the first position of `sub` in `s`, or -1. */
  function Index(s: string, sub: string): (r: int)
    ensures r == -1 || OccursAt(s, sub, r)
    ensures forall j :: 0 <= j && (r < 0 || j < r) ==> !OccursAt(s, sub, j)
    decreases |s|
  {
    if |sub| > |s| then -1
    else if s[..|sub|] == sub then 0
    else
      var k := Index(s[1..], sub);
      assert !OccursAt(s, sub, 0);
      assert forall j :: 1 <= j ==> (OccursAt(s, sub, j) <==> OccursAt(s[1..], sub, j - 1)) by {
        forall j | 1 <= j ensures OccursAt(s, sub, j) <==> OccursAt(s[1..], sub, j - 1) {
          OccursAtShift(s, sub, j - 1);
        }
      }
      if k < 0 then -1 else k + 1
  }

  lemma OccursAtShift(s: string, sub: string, j: nat)
    requires |s| > 0
    ensures OccursAt(s, sub, j + 1) <==> OccursAt(s[1..], sub, j)
  {
    if j + 1 + |sub| <= |s| {
      assert s[j + 1..j + 1 + |sub|] == s[1..][j..j + |sub|];
    }
  }

  /** The first occurrence of `sub` is the one Index reports. */
  lemma IndexIs(s: string, sub: string, k: nat)
    requires OccursAt(s, sub, k)
    requires forall j :: 0 <= j < k ==> !OccursAt(s, sub, j)
    ensures Index(s, sub) == k
  {
  }

  /** strings.Contains. */
  predicate Contains(s: string, sub: string) {
    Index(s, sub) >= 0
  }

  /** strings.IndexByte: the first position of `c` in `s`, or -1. */
  function IndexByte(s: string, c: char): (r: int)
    ensures r == -1 <==> c !in s
    ensures 0 <= r ==> r < |s| && s[r] == c && c !in s[..r]
    ensures forall k :: 0 <= k < |s| && (r < 0 || k < r) ==> s[k] != c
    decreases |s|
  {
    if |s| == 0 then -1
    else if s[0] == c then 0
    else
      var k := IndexByte(s[1..], c);
      assert s == [s[0]] + s[1..];
      if k < 0 then -1
      else
        assert s[..k + 1] == [s[0]] + s[1..][..k];
        k + 1
  }

  /** strings.Join. */
  function Join(parts: seq<string>, sep: string): string
    decreases |parts|
  {
    if |parts| == 0 then ""
    else if |parts| == 1 then parts[0]
    else parts[0] + sep + Join(parts[1..], sep)
  }

  /** strings.Split with a one-byte separator: the pieces between occurrences of
      `sep`. */
  function Split(s: string, sep: char): (parts: seq<string>)
    ensures |parts| >= 1
    ensures forall i :: 0 <= i < |parts| ==> sep !in parts[i]
    decreases |s|
  {
    var i := IndexByte(s, sep);
    if i < 0 then [s]
    else
      var rest := Split(s[i + 1..], sep);
      var parts := [s[..i]] + rest;
      assert forall j :: 1 <= j < |parts| ==> parts[j] == rest[j - 1];
      parts
  }

  /** Joining the pieces with the separator gives back the text. */
  lemma {:induction false} JoinSplit(s: string, sep: char)
    ensures Join(Split(s, sep), [sep]) == s
    decreases |s|
  {
    var i := IndexByte(s, sep);
    if i >= 0 {
      var rest := Split(s[i + 1..], sep);
      JoinSplit(s[i + 1..], sep);
      var parts := [s[..i]] + rest;
      assert parts[1..] == rest;
      assert s == s[..i] + [sep] + s[i + 1..];
    }
  }

  /** Each line followed by a newline: what repeated WriteString(line + "\n")
      calls on a strings.Builder produce. */
  function Lines(ls: seq<string>): string
    decreases |ls|
  {
    if ls == [] then "" else ls[0] + "\n" + Lines(ls[1..])
  }

  lemma {:induction false} LinesAppend(a: seq<string>, b: seq<string>)
    ensures Lines(a + b) == Lines(a) + Lines(b)
    decreases |a|
  {
    if a == [] {
      assert a + b == b;
    } else {
      assert (a + b)[0] == a[0];
      assert (a + b)[1..] == a[1..] + b;
      LinesAppend(a[1..], b);
    }
  }

  /** The first separator after a separator-free piece ends that piece. */
  lemma IndexByteAfter(l: string, sep: char, rest: string)
    requires sep !in l
    ensures IndexByte(l + [sep] + rest, sep) == |l|
  {
    var s := l + [sep] + rest;
    assert s[|l|] == sep;
    assert forall k :: 0 <= k < |l| ==> s[k] == l[k] && s[k] != sep;
  }

  lemma SplitAfter(l: string, sep: char, rest: string)
    requires sep !in l
    ensures Split(l + [sep] + rest, sep) == [l] + Split(rest, sep)
  {
    var s := l + [sep] + rest;
    IndexByteAfter(l, sep, rest);
    assert s[|l| + 1..] == rest;
    assert s[..|l|] == l;
  }

  /** Re-joining the pieces after the first gives the text after the first separator. */
  lemma JoinAfterFirst(s: string, sep: char)
    requires sep in s
    ensures |Split(s, sep)| >= 2
    ensures Join(Split(s, sep)[1..], [sep]) == s[IndexByte(s, sep) + 1..]
  {
    var i := IndexByte(s, sep);
    var rest := s[i + 1..];
    assert Split(s, sep) == [s[..i]] + Split(rest, sep);
    assert Split(s, sep)[1..] == Split(rest, sep);
    JoinSplit(rest, sep);
  }

  /** Splitting the join of separator-free pieces gives the pieces back. */
  lemma {:induction false} SplitJoin(parts: seq<string>, sep: char)
    requires |parts| >= 1
    requires forall i :: 0 <= i < |parts| ==> sep !in parts[i]
    ensures Split(Join(parts, [sep]), sep) == parts
    decreases |parts|
  {
    if |parts| == 1 {
      assert IndexByte(parts[0], sep) == -1;
    } else {
      var tail := parts[1..];
      assert forall i :: 0 <= i < |tail| ==> tail[i] == parts[i + 1];
      SplitJoin(tail, sep);
      SplitAfter(parts[0], sep, Join(tail, [sep]));
      assert [parts[0]] + tail == parts;
    }
  }

  /** Splitting newline-terminated lines on "\n" gives the lines back, plus the
      empty piece after the final newline. */
  lemma {:induction false} SplitLines(ls: seq<string>)
    requires forall i :: 0 <= i < |ls| ==> '\n' !in ls[i]
    ensures Split(Lines(ls), '\n') == ls + [""]
    decreases |ls|
  {
    if ls == [] {
      assert IndexByte("", '\n') == -1;
    } else {
      var tail := ls[1..];
      assert forall i :: 0 <= i < |tail| ==> tail[i] == ls[i + 1];
      SplitLines(tail);
      SplitLinesCons(ls[0], tail);
      assert [ls[0]] + tail == ls;
    }
  }

  lemma SplitLinesCons(l: string, tail: seq<string>)
    requires '\n' !in l
    requires Split(Lines(tail), '\n') == tail + [""]
    ensures Split(Lines([l] + tail), '\n') == [l] + tail + [""]
  {
    var ls := [l] + tail;
    assert ls[0] == l && ls[1..] == tail;
    SplitAfter(l, '\n', Lines(tail));
  }

  /** The number of leading bytes of `t` that are not whitespace. */
  function WordLength(t: string): (n: nat)
    ensures n <= |t|
    ensures forall k :: 0 <= k < n ==> !IsSpace(t[k])
    ensures n < |t| ==> IsSpace(t[n])
    decreases |t|
  {
    if |t| == 0 || IsSpace(t[0]) then 0 else 1 + WordLength(t[1..])
  }

  predicate NoSpace(w: string) {
    forall k :: 0 <= k < |w| ==> !IsSpace(w[k])
  }

  predicate Words(fs: seq<string>) {
    forall i :: 0 <= i < |fs| ==> fs[i] != [] && NoSpace(fs[i])
  }

  /** strings.Fields: the maximal runs of non-whitespace bytes, in order. */
  function Fields(s: string): (fs: seq<string>)
    ensures Words(fs)
    decreases |s|
  {
    var t := TrimLeft(s, Whitespace);
    if t == [] then []
    else
      var n := WordLength(t);
      FirstWord(t);
      var rest := Fields(t[n..]);
      ConsWord(t[..n], rest);
      [t[..n]] + rest
  }

  /** A text that starts with a non-space byte starts with a non-empty word. */
  lemma FirstWord(t: string)
    requires t != [] && !IsSpace(t[0])
    ensures 1 <= WordLength(t) && NoSpace(t[..WordLength(t)])
  {
  }

  lemma ConsWord(w: string, rest: seq<string>)
    requires w != [] && NoSpace(w) && Words(rest)
    ensures Words([w] + rest)
  {
    var fs := [w] + rest;
    forall i | 0 <= i < |fs| ensures fs[i] != [] && NoSpace(fs[i]) {
      if i > 0 {
        assert fs[i] == rest[i - 1];
      }
    }
  }

  lemma {:induction false} WordLengthOf(w: string, t: string)
    requires NoSpace(w) && (t == [] || IsSpace(t[0]))
    ensures WordLength(w + t) == |w|
    decreases |w|
  {
    if w == [] {
      assert w + t == t;
    } else {
      assert (w + t)[1..] == w[1..] + t;
      WordLengthOf(w[1..], t);
    }
  }

  /** A word followed by whitespace (or nothing) is the first field. */
  lemma FieldsCons(w: string, t: string)
    requires w != [] && NoSpace(w) && (t == [] || IsSpace(t[0]))
    ensures Fields(w + t) == [w] + Fields(t)
  {
    var s := w + t;
    assert s[0] == w[0];
    assert TrimLeft(s, Whitespace) == s;
    WordLengthOf(w, t);
    assert s[..|w|] == w && s[|w|..] == t;
  }

  /** Leading whitespace does not change the fields. */
  lemma FieldsSkipSpace(c: char, t: string)
    requires IsSpace(c)
    ensures Fields([c] + t) == Fields(t)
  {
    assert ([c] + t)[1..] == t;
  }

  /** A word followed by a space is the first field of the text. */
  lemma FieldsWordSpace(w: string, t: string)
    requires w != [] && NoSpace(w)
    ensures Fields(w + " " + t) == [w] + Fields(t)
  {
    assert w + " " + t == w + ([' '] + t);
    FieldsCons(w, [' '] + t);
    FieldsSkipSpace(' ', t);
  }

  /** Leading indentation does not change the fields. */
  lemma {:induction false} FieldsSkipIndent(indent: string, t: string)
    requires forall k :: 0 <= k < |indent| ==> IsSpace(indent[k])
    ensures Fields(indent + t) == Fields(t)
    decreases |indent|
  {
    if indent != [] {
      var tail := indent[1..];
      assert forall k :: 0 <= k < |tail| ==> tail[k] == indent[k + 1];
      assert indent + t == [indent[0]] + (tail + t);
      FieldsSkipSpace(indent[0], tail + t);
      FieldsSkipIndent(tail, t);
    } else {
      assert indent + t == t;
    }
  }

  /** An occurrence makes Contains true. */
  lemma ContainsAt(s: string, sub: string, j: nat)
    requires OccursAt(s, sub, j)
    ensures Contains(s, sub)
  {
  }

  /** A text with a non-space byte has a field. */
  lemma FieldsNonEmpty(s: string, k: nat)
    requires k < |s| && !IsSpace(s[k])
    ensures Fields(s) != []
  {
  }

  /** A trimmed line that starts with a word and a space has that word as its
      first field and at least one field after it. */
  lemma KeyedLineFields(t: string, w: string)
    requires Trimmed(t) && w != [] && NoSpace(w) && HasPrefix(t, w + " ")
    ensures |Fields(t)| >= 2 && Fields(t)[0] == w
  {
    var rest := t[|w| + 1..];
    assert t == w + ([' '] + rest);
    FieldsCons(w, [' '] + rest);
    FieldsSkipSpace(' ', rest);
    assert t[|t| - 1] == rest[|rest| - 1];
    FieldsNonEmpty(rest, |rest| - 1);
  }

  /** A string made only of `cut` bytes trims to nothing. */
  lemma {:induction false} TrimLeftAll(s: string, cut: set<char>)
    requires forall i :: 0 <= i < |s| ==> s[i] in cut
    ensures TrimLeft(s, cut) == [] && Trim(s, cut) == []
    decreases |s|
  {
    if s != [] {
      TrimLeftAll(s[1..], cut);
    }
  }

  /** TrimSpace drops one leading space from a trimmed non-empty text. */
  lemma TrimSpaceAfterSpace(w: string)
    requires w != [] && Trimmed(w)
    ensures TrimSpace(" " + w) == w
  {
    assert (" " + w)[1..] == w;
    assert (" " + w)[0] == ' ';
    assert TrimLeft(" " + w, Whitespace) == TrimLeft(w, Whitespace) == w;
  }

  /** Trim removes nothing from a string already trimmed of `cut`. */
  lemma TrimOfTrimmed(v: string, cut: set<char>)
    requires TrimmedOf(v, cut)
    ensures Trim(v, cut) == v
  {
  }

  /** Trim removes one enclosing pair of `cut` bytes around a trimmed string. */
  lemma TrimEnclosed(c: char, v: string, cut: set<char>)
    requires c in cut && TrimmedOf(v, cut)
    ensures Trim([c] + v + [c], cut) == v
  {
    var s := [c] + v + [c];
    assert s[1..] == v + [c];
    if v == [] {
      assert TrimLeft(v + [c], cut) == [];
    } else {
      assert (v + [c])[0] == v[0];
      assert TrimLeft(v + [c], cut) == v + [c];
      assert (v + [c])[..|v|] == v;
    }
  }

  /** ASCII case mapping (unicode.ToUpper on single bytes). */
  function UpperByte(c: char): char {
    if 'a' <= c <= 'z' then (c as int - 32) as char else c
  }

  function LowerByte(c: char): char {
    if 'A' <= c <= 'Z' then (c as int + 32) as char else c
  }

  function ToUpper(s: string): (r: string)
    ensures |r| == |s| && forall i :: 0 <= i < |s| ==> r[i] == UpperByte(s[i])
  {
    seq(|s|, i requires 0 <= i < |s| => UpperByte(s[i]))
  }

  function ToLower(s: string): (r: string)
    ensures |r| == |s| && forall i :: 0 <= i < |s| ==> r[i] == LowerByte(s[i])
  {
    seq(|s|, i requires 0 <= i < |s| => LowerByte(s[i]))
  }

  /** Go's `a < b` on strings: bytewise lexicographic order. (Dafny's own `<`
      on sequences means "proper prefix".) */
  predicate Less(a: string, b: string)
    decreases |a|
  {
    if |b| == 0 then false
    else if |a| == 0 then true
    else if a[0] != b[0] then a[0] < b[0]
    else Less(a[1..], b[1..])
  }

  predicate LessEq(a: string, b: string) {
    a == b || Less(a, b)
  }

  lemma {:induction false} LessIrreflexive(a: string)
    ensures !Less(a, a)
    decreases |a|
  {
    if |a| > 0 {
      LessIrreflexive(a[1..]);
    }
  }

  lemma {:induction false} LessTransitive(a: string, b: string, c: string)
    requires Less(a, b) && Less(b, c)
    ensures Less(a, c)
    decreases |a|
  {
    if |a| > 0 && a[0] == b[0] && b[0] == c[0] {
      LessTransitive(a[1..], b[1..], c[1..]);
    }
  }

  lemma {:induction false} LessTrichotomy(a: string, b: string)
    ensures a == b || Less(a, b) || Less(b, a)
    decreases |a|
  {
    if |a| > 0 && |b| > 0 && a[0] == b[0] {
      LessTrichotomy(a[1..], b[1..]);
      if a[1..] == b[1..] {
        assert a == [a[0]] + a[1..] && b == [b[0]] + b[1..];
      }
    }
  }

  lemma {:induction false} LessAsymmetric(a: string, b: string)
    requires Less(a, b)
    ensures !Less(b, a)
    decreases |a|
  {
    if |a| > 0 && a[0] == b[0] {
      LessAsymmetric(a[1..], b[1..]);
    }
  }

  /** The index of the first element of `xs` that satisfies `p`, if any. */
  function FirstWhere<T>(xs: seq<T>, p: T -> bool): (r: Option<nat>)
    ensures r.Some? ==> r.value < |xs| && p(xs[r.value])
    ensures forall j :: 0 <= j < |xs| && (r.None? || j < r.value) ==> !p(xs[j])
    decreases |xs|
  {
    if |xs| == 0 then None
    else if p(xs[0]) then Some(0)
    else match FirstWhere(xs[1..], p)
      case None => None
      case Some(k) => Some(k + 1)
  }

  /** The first index where `p` holds is the one FirstWhere reports. */
  lemma FirstWhereIs<T>(xs: seq<T>, p: T -> bool, k: nat)
    requires k < |xs| && p(xs[k])
    requires forall j :: 0 <= j < k ==> !p(xs[j])
    ensures FirstWhere(xs, p) == Some(k)
  {
  }
}
