/**
 * `rewrite_wrl.py`: a plain-text editor for the VRML files Geant4 writes.
 * The file is cut into shapes at every '#', each shape is named after the
 * text that follows the last ':' of its first line, and edits are regular
 * expression substitutions applied to the shapes a name selects.  Texts
 * are Python 2 byte strings.
 */
module Vrml {
  import opened Wire
  import opened Text
  import SourceUnits

  const Newline: Byte := 10
  const Tab: Byte := 9
  const Hash: Byte := 35
  const Colon: Byte := 58
  const CloseBrace: Byte := 125

  const TransparencyKey: Bytes := [116, 114, 97, 110, 115, 112, 97, 114, 101, 110, 99, 121]  // "transparency"
  const DiffuseColorKey: Bytes := [100, 105, 102, 102, 117, 115, 101, 67, 111, 108, 111, 114]  // "diffuseColor"
  const PositionKey: Bytes := [112, 111, 115, 105, 116, 105, 111, 110]                         // "position"
  const FieldOfViewKey: Bytes := [102, 105, 101, 108, 100, 79, 102, 86, 105, 101, 119]          // "fieldOfView"
  const WrlSuffix: Bytes := [46, 119, 114, 108]                                                 // ".wrl"
  const EditSuffix: Bytes := [95, 101, 100, 105, 116, 46, 119, 114, 108]                        // "_edit.wrl"

  /** Length of the "#----------" that opens a shape, skipped to get its category (line 37). */
  const CategoryStart: nat := 11

  // ---------------------------------------------------------------------------
  // Python string operations
  // ---------------------------------------------------------------------------

  /** `s.split(c)`: the pieces between the separators; there is always at least one. */
  function Split(s: Bytes, c: Byte): (r: seq<Bytes>)
    ensures |r| >= 1 && forall k :: 0 <= k < |r| ==> c !in r[k]
    decreases |s|
  {
    match SourceUnits.SplitAt(s, c)
    case (a, None) => [a]
    case (a, Some(b)) => [a] + Split(b, c)
  }

  /** `c.join(s.split(c)) == s`: splitting loses nothing. */
  lemma {:induction false} SplitJoin(s: Bytes, c: Byte)
    ensures SourceUnits.Join(Split(s, c), c) == s
    decreases |s|
  {
    match SourceUnits.SplitAt(s, c)
    case (a, None) =>
    case (a, Some(b)) =>
      SplitJoin(b, c);
      var r := Split(s, c);
      assert r == [a] + Split(b, c) && r[1..] == Split(b, c);
  }

  /** `s.lstrip()`: the text after its leading whitespace. */
  function StripLeft(s: Bytes): Bytes
    decreases |s|
  {
    if s != [] && IsSpace(s[0]) then StripLeft(s[1..]) else s
  }

  /** `s.lstrip()` drops exactly the leading whitespace. */
  lemma {:induction false} StripLeftDrops(s: Bytes)
    ensures var r := StripLeft(s);
      |r| <= |s| && r == s[|s| - |r|..] &&
      (forall k :: 0 <= k < |s| - |r| ==> IsSpace(s[k])) &&
      (r == [] || !IsSpace(r[0]))
    decreases |s|
  {
    if s != [] && IsSpace(s[0]) {
      StripLeftDrops(s[1..]);
    }
  }

  /** `s.rstrip()`: the text before its trailing whitespace. */
  function StripRight(s: Bytes): Bytes
    decreases |s|
  {
    if s != [] && IsSpace(s[|s| - 1]) then StripRight(s[..|s| - 1]) else s
  }

  /** `s.rstrip()` drops exactly the trailing whitespace. */
  lemma {:induction false} StripRightDrops(s: Bytes)
    ensures var r := StripRight(s);
      |r| <= |s| && r == s[..|r|] &&
      (forall k :: |r| <= k < |s| ==> IsSpace(s[k])) &&
      (r == [] || !IsSpace(r[|r| - 1]))
    decreases |s|
  {
    if s != [] && IsSpace(s[|s| - 1]) {
      StripRightDrops(s[..|s| - 1]);
      assert s[..|s| - 1][..|StripRight(s)|] == s[..|StripRight(s)|];
    }
  }

  /** `s.strip()`. */
  function Strip(s: Bytes): Bytes
  {
    StripRight(StripLeft(s))
  }

  /** A piece made of whitespace only, which the shape list drops (line 64). */
  predicate Blank(s: Bytes)
  {
    forall k :: 0 <= k < |s| ==> IsSpace(s[k])
  }

  /** `s.strip()` is empty exactly when the piece is blank: Python's test `if shape.strip()`. */
  lemma StripEmptyIff(s: Bytes)
    ensures Strip(s) == [] <==> Blank(s)
  {
    StripLeftDrops(s);
    var l := StripLeft(s);
    StripRightDrops(l);
    if l != [] {
      assert !IsSpace(s[|s| - |l|]);
      var r := StripRight(l);
      assert r != [];
    }
  }

  /** A stripped text keeps what the text holds in between, and starts and ends with no whitespace. */
  lemma StripInside(s: Bytes, c: Byte)
    requires c !in s
    ensures var r := Strip(s); c !in r && (r == [] || (!IsSpace(r[0]) && !IsSpace(r[|r| - 1])))
  {
    StripLeftDrops(s);
    var l := StripLeft(s);
    StripRightDrops(l);
    var r := StripRight(l);
    assert forall k :: 0 <= k < |r| ==> r[k] == s[|s| - |l| + k];
  }

  /** `s[k:]` with Python's clamping: empty when `s` is shorter than `k`. */
  function Drop(s: Bytes, k: nat): (r: Bytes)
    ensures |s| <= k ==> r == []
    ensures |s| > k ==> r == s[k..]
  {
    if |s| <= k then [] else s[k..]
  }

  /**
   * `s.replace(pat, rep)`: every occurrence, left to right and without
   * overlap, replaced.
   */
  function Replace(s: Bytes, pat: Bytes, rep: Bytes): Bytes
    requires pat != []
    decreases |s|
  {
    if |s| < |pat| then s
    else if s[..|pat|] == pat then rep + Replace(s[|pat|..], pat, rep)
    else [s[0]] + Replace(s[1..], pat, rep)
  }

  /** A text without the pattern is left as it is. */
  lemma {:induction false} ReplaceAbsent(s: Bytes, pat: Bytes, rep: Bytes)
    requires pat != [] && !Contains(s, pat)
    ensures Replace(s, pat, rep) == s
    decreases |s|
  {
    ContainsIff(s, pat);
    if |s| >= |pat| {
      assert !OccursAt(s, pat, 0);
      ContainsIff(s[1..], pat);
      forall i: nat | OccursAt(s[1..], pat, i) ensures false {
        assert s[1..][i..i + |pat|] == s[i + 1..i + 1 + |pat|];
        assert OccursAt(s, pat, i + 1);
      }
      ReplaceAbsent(s[1..], pat, rep);
    }
  }

  /** A one-character pattern occurs exactly when the character does. */
  lemma ContainsOne(s: Bytes, c: Byte)
    ensures Contains(s, [c]) <==> c in s
  {
    if Contains(s, [c]) {
      var i := Find(s, [c]).value;
      assert s[i] == s[i..i + 1][0];
    } else if c in s {
      var i :| 0 <= i < |s| && s[i] == c;
      assert OccursAt(s, [c], i);
      ContainsIff(s, [c]);
    }
  }

  /** Replacing one character: the text before its first occurrence is kept. */
  lemma {:induction false} ReplaceCharSplit(a: Bytes, c: Byte, b: Bytes, rep: Bytes)
    requires c !in a
    ensures Replace(a + [c] + b, [c], rep) == a + rep + Replace(b, [c], rep)
    decreases |a|
  {
    var s := a + [c] + b;
    if a == [] {
      assert s[..1] == [c] && s[1..] == b;
    } else {
      assert s[..1] == [a[0]] && s[..1] != [c];
      assert s[1..] == a[1..] + [c] + b;
      ReplaceCharSplit(a[1..], c, b, rep);
    }
  }

  /**
   * Replacing one character is splitting at it and joining the pieces with
   * the replacement: the replacement goes exactly where each occurrence was.
   */
  lemma {:induction false} ReplaceCharIsSplitJoin(s: Bytes, c: Byte, rep: Bytes)
    ensures Replace(s, [c], rep) == JoinWith(Split(s, c), rep)
    decreases |s|
  {
    match SourceUnits.SplitAt(s, c)
    case (a, None) =>
      ContainsOne(s, c);
      ReplaceAbsent(s, [c], rep);
    case (a, Some(b)) =>
      ReplaceCharSplit(a, c, b, rep);
      ReplaceCharIsSplitJoin(b, c, rep);
      var r := Split(s, c);
      assert r == [a] + Split(b, c) && r[1..] == Split(b, c);
  }

  /** The pieces joined with `sep` between each two. */
  function JoinWith(pieces: seq<Bytes>, sep: Bytes): Bytes
  {
    if |pieces| == 0 then [] else if |pieces| == 1 then pieces[0] else pieces[0] + sep + JoinWith(pieces[1..], sep)
  }

  /** The concatenation of texts in order. */
  function Concat(texts: seq<Bytes>): Bytes
  {
    if texts == [] then [] else texts[0] + Concat(texts[1..])
  }

  // ---------------------------------------------------------------------------
  // The substitution `re.sub(r'(key)(.*\n)', r'\1 value\n', text)`
  // ---------------------------------------------------------------------------

  /** Keys are constant words without a newline. */
  predicate IsKey(key: Bytes)
  {
    key != [] && Newline !in key
  }

  /**
   * One line of the substitution: from the key's first occurrence to the
   * end of the line, the text becomes the key, a space and the value.
   */
  function SubInLine(line: Bytes, key: Bytes, value: Bytes): (r: Bytes)
    requires IsKey(key)
    ensures Newline !in line && Newline !in value ==> Newline !in r
  {
    match Find(line, key)
    case None => line
    case Some(i) => line[..i] + key + [Space] + value
  }

  /**
   * The substitution of lines 46, 50, 54 and 155.  Neither the key nor `.`
   * matches a newline, so a match lies within one line and takes the rest of
   * it together with the newline that ends it: every line that ends with a
   * newline is rewritten from its first occurrence of the key, and the text
   * after the last newline never matches.
   */
  function SubLine(text: Bytes, key: Bytes, value: Bytes): Bytes
    requires IsKey(key)
    decreases |text|
  {
    match SourceUnits.SplitAt(text, Newline)
    case (line, None) => line
    case (line, Some(rest)) => SubInLine(line, key, value) + [Newline] + SubLine(rest, key, value)
  }

  /** An occurrence in a part of a text is an occurrence in the text. */
  lemma OccursInPart(a: Bytes, b: Bytes, c: Bytes, pat: Bytes, i: nat)
    requires OccursAt(b, pat, i)
    ensures OccursAt(a + b + c, pat, |a| + i)
  {
    assert (a + b + c)[|a| + i..|a| + i + |pat|] == b[i..i + |pat|];
  }

  /** A text without the key is left as it is. */
  lemma {:induction false} SubLineAbsent(text: Bytes, key: Bytes, value: Bytes)
    requires IsKey(key) && !Contains(text, key)
    ensures SubLine(text, key, value) == text
    decreases |text|
  {
    match SourceUnits.SplitAt(text, Newline)
    case (line, None) =>
    case (line, Some(rest)) =>
      ContainsIff(text, key);
      ContainsIff(line, key);
      ContainsIff(rest, key);
      assert text == [] + line + ([Newline] + rest) == (line + [Newline]) + rest + [];
      forall i: nat ensures !OccursAt(line, key, i) {
        if OccursAt(line, key, i) {
          OccursInPart([], line, [Newline] + rest, key, i);
        }
      }
      forall i: nat ensures !OccursAt(rest, key, i) {
        if OccursAt(rest, key, i) {
          OccursInPart(line + [Newline], rest, [], key, i);
        }
      }
      SubLineAbsent(rest, key, value);
  }

  /** Every line but the last rewritten on its own. */
  function SubLines(lines: seq<Bytes>, key: Bytes, value: Bytes): (r: seq<Bytes>)
    requires IsKey(key)
    ensures |r| == |lines|
    ensures forall k :: 0 <= k < |lines| - 1 ==> r[k] == SubInLine(lines[k], key, value)
    ensures |lines| > 0 ==> r[|lines| - 1] == lines[|lines| - 1]
  {
    if |lines| <= 1 then lines else [SubInLine(lines[0], key, value)] + SubLines(lines[1..], key, value)
  }

  /**
   * The substitution keeps the lines: it has as many as the text, each line
   * that ends with a newline is rewritten on its own, and the last is kept.
   */
  lemma {:induction false} SubLineLines(text: Bytes, key: Bytes, value: Bytes)
    requires IsKey(key) && Newline !in value
    ensures Split(SubLine(text, key, value), Newline) == SubLines(Split(text, Newline), key, value)
    decreases |text|
  {
    match SourceUnits.SplitAt(text, Newline)
    case (line, None) =>
    case (line, Some(rest)) =>
      var head := SubInLine(line, key, value);
      var tail := SubLine(rest, key, value);
      SourceUnits.SplitAtJoin(head, Newline, tail);
      SubLineLines(rest, key, value);
      var before := Split(rest, Newline);
      assert Split(SubLine(text, key, value), Newline) == [head] + Split(tail, Newline);
      assert Split(text, Newline) == [line] + before;
      assert ([line] + before)[1..] == before;
  }

  // ---------------------------------------------------------------------------
  // Shapes and their names
  // ---------------------------------------------------------------------------

  /** `text.split("\n", 1)[0]`: the text up to its first newline. */
  function FirstLine(text: Bytes): (r: Bytes)
    ensures Newline !in r
  {
    SourceUnits.SplitAt(text, Newline).0
  }

  /** The text before the first `c`, scanned from the front. */
  function UpTo(s: Bytes, c: Byte): Bytes
  {
    if s == [] || s[0] == c then [] else [s[0]] + UpTo(s[1..], c)
  }

  /** The text after the last `c`, scanned from the back. */
  function AfterLast(s: Bytes, c: Byte): Bytes
  {
    if s == [] || s[|s| - 1] == c then [] else AfterLast(s[..|s| - 1], c) + [s[|s| - 1]]
  }

  /**
   * `text.split("\n", 1)[0].split(":")[-1].strip()` (lines 41-42): the stripped text after the
   * last colon of the first line. `NameIsPythonName` shows the two forms agree.
   */
  function ObjectName(text: Bytes): Bytes
  {
    Strip(AfterLast(UpTo(text, Newline), Colon))
  }

  /** Scanning to the first `c` is Python's `split(c, 1)[0]`. */
  lemma {:induction false} UpToFirst(s: Bytes, c: Byte)
    ensures UpTo(s, c) == SourceUnits.SplitAt(s, c).0
    decreases |s|
  {
    if s != [] && s[0] != c {
      UpToFirst(s[1..], c);
      var (a, b) := SourceUnits.SplitAt(s[1..], c);
      if b.Some? {
        assert s == [s[0]] + a + [c] + b.value;
        SourceUnits.SplitAtJoin([s[0]] + a, c, b.value);
      } else {
        assert c !in s;
      }
    } else if s != [] {
      SourceUnits.SplitAtJoin([], c, s[1..]);
      assert s == [] + [c] + s[1..];
    }
  }

  /** The text before the first `c` holds no `c`. */
  lemma {:induction false} UpToNoSep(s: Bytes, c: Byte)
    ensures c !in UpTo(s, c)
    decreases |s|
  {
    if s != [] && s[0] != c {
      UpToNoSep(s[1..], c);
    }
  }

  /** Scanning back to the last `c` gives an end of the text without `c`. */
  lemma {:induction false} AfterLastSuffix(s: Bytes, c: Byte)
    ensures var r := AfterLast(s, c); c !in r && |r| <= |s| && s[|s| - |r|..] == r
    decreases |s|
  {
    if s != [] && s[|s| - 1] != c {
      var init := s[..|s| - 1];
      AfterLastSuffix(init, c);
      var a := AfterLast(init, c);
      assert s == init + [s[|s| - 1]];
      assert s[|s| - |a| - 1..] == init[|init| - |a|..] + [s[|s| - 1]];
    }
  }

  /** The first line of a shape, when it is `head` followed by a newline. */
  lemma {:induction false} UpToSep(head: Bytes, c: Byte, rest: Bytes)
    requires c !in head
    ensures UpTo(head + [c] + rest, c) == head
    decreases |head|
  {
    if head != [] {
      UpToSep(head[1..], c, rest);
      assert (head + [c] + rest)[1..] == head[1..] + [c] + rest;
    }
  }

  /** What precedes the last `c` does not matter. */
  lemma {:induction false} AfterLastAfter(h: Bytes, c: Byte, n: Bytes)
    ensures AfterLast(h + [c] + n, c) == AfterLast(n, c)
    decreases |n|
  {
    var s := h + [c] + n;
    if n == [] {
      assert s[|s| - 1] == c;
    } else {
      var init := n[..|n| - 1];
      assert s[..|s| - 1] == h + [c] + init;
      assert s[|s| - 1] == n[|n| - 1];
      if n[|n| - 1] != c {
        AfterLastAfter(h, c, init);
      }
    }
  }

  /** A text without `c` is all after the last `c`. */
  lemma {:induction false} AfterLastWhole(s: Bytes, c: Byte)
    requires c !in s
    ensures AfterLast(s, c) == s
    decreases |s|
  {
    if s != [] {
      AfterLastWhole(s[..|s| - 1], c);
      assert s == s[..|s| - 1] + [s[|s| - 1]];
    }
  }

  /** Scanning back to the last `c` gives Python's `split(c)[-1]`. */
  lemma {:induction false} AfterLastIsLastPiece(s: Bytes, c: Byte)
    ensures AfterLast(s, c) == Last(Split(s, c))
    decreases |s|
  {
    var (a, b) := SourceUnits.SplitAt(s, c);
    if b.Some? {
      var rest := b.value;
      AfterLastIsLastPiece(rest, c);
      AfterLastAfter(a, c, rest);
      var x := Split(rest, c);
      assert Split(s, c) == [a] + x;
      LastCons(a, x);
    } else {
      AfterLastWhole(s, c);
    }
  }

  /** A name holds no colon and no newline, and starts and ends with no whitespace. */
  lemma {:induction false} ObjectNameClean(text: Bytes)
    ensures var r := ObjectName(text);
      Colon !in r && Newline !in r && (r == [] || (!IsSpace(r[0]) && !IsSpace(r[|r| - 1])))
  {
    var line := UpTo(text, Newline);
    UpToNoSep(text, Newline);
    AfterLastSuffix(line, Colon);
    var last := AfterLast(line, Colon);
    assert forall k :: 0 <= k < |last| ==> last[k] == line[|line| - |last| + k];
    StripInside(last, Colon);
    StripInside(last, Newline);
  }

  /** A text without the separator is one piece. */
  lemma SplitNone(s: Bytes, c: Byte)
    requires c !in s
    ensures Split(s, c) == [s]
  {
  }

  /** The first piece ends at the first separator. */
  lemma SplitCons(a: Bytes, c: Byte, rest: Bytes)
    requires c !in a
    ensures Split(a + [c] + rest, c) == [a] + Split(rest, c)
  {
    SourceUnits.SplitAtJoin(a, c, rest);
  }

  /** `s[-1]`. */
  function Last<T>(s: seq<T>): T
    requires |s| > 0
  {
    s[|s| - 1]
  }

  lemma LastCons<T>(a: T, x: seq<T>)
    requires |x| > 0
    ensures Last([a] + x) == Last(x)
  {
  }

  /** The name is Python's `split("\n", 1)[0].split(":")[-1].strip()`. */
  lemma NameIsPythonName(text: Bytes)
    ensures ObjectName(text) == Strip(Last(Split(FirstLine(text), Colon)))
  {
    UpToFirst(text, Newline);
    AfterLastIsLastPiece(FirstLine(text), Colon);
  }

  /** A shape whose first line ends with `:` and a name is named after that name, stripped. */
  lemma ObjectNameOf(head: Bytes, n: Bytes, rest: Bytes)
    requires Newline !in head && Newline !in n && Colon !in n
    ensures ObjectName(head + [Colon] + n + [Newline] + rest) == Strip(n)
  {
    UpToSep(head + [Colon] + n, Newline, rest);
    AfterLastAfter(head, Colon, n);
    AfterLastWhole(n, Colon);
  }

  /** `text.split(":")[0][11:]` (lines 37-38): the text before the first colon, after the "#----------" rule. */
  function ObjectCategory(text: Bytes): (r: Bytes)
    ensures Colon !in r
  {
    Drop(Split(text, Colon)[0], CategoryStart)
  }

  /** The category is the text between the rule and the first colon. */
  lemma ObjectCategoryOf(head: Bytes, rest: Bytes)
    requires Colon !in head && |head| >= CategoryStart
    ensures ObjectCategory(head + [Colon] + rest) == head[CategoryStart..]
  {
    SourceUnits.SplitAtJoin(head, Colon, rest);
  }

  /** Whether a shape named `objName` is one that `name` selects (lines 98-105). */
  predicate Selected(objName: Bytes, name: Bytes, partialMatch: bool)
  {
    if partialMatch then Contains(objName, name) else name == objName
  }

  /** Three integers written with `%d %d %d` (lines 50 and 54). */
  function Triple(a: int, b: int, c: int): Bytes
  {
    Decimal(a) + [Space] + Decimal(b) + [Space] + Decimal(c)
  }

  /** A shape of the file: its text, which edits rewrite, and the category and name read from it. */
  class VrmlObject {
    var text: Bytes
    const category: Bytes
    const name: Bytes

    /** `VRML_Object.__init__` (lines 30-42). */
    constructor (raw: Bytes)
      ensures text == raw && category == ObjectCategory(raw) && name == ObjectName(raw)
    {
      text := raw;
      category := ObjectCategory(raw);
      name := ObjectName(raw);
    }

    /** Rewrites every line holding `key` to end in `key` and `value`. */
    method Substitute(key: Bytes, value: Bytes)
      requires IsKey(key)
      modifies this
      ensures text == SubLine(old(text), key, value)
    {
      text := SubLine(text, key, value);
    }

    /** `set_transparency` (lines 44-46); `t` is the `%f` text of the transparency. */
    method SetTransparency(t: Bytes)
      modifies this
      ensures text == SubLine(old(text), TransparencyKey, t)
    {
      Substitute(TransparencyKey, t);
    }

    /** `set_color` (lines 48-50). */
    method SetColor(r: int, g: int, b: int)
      modifies this
      ensures text == SubLine(old(text), DiffuseColorKey, Triple(r, g, b))
    {
      Substitute(DiffuseColorKey, Triple(r, g, b));
    }

    /** `set_viewpoint` (lines 52-54). */
    method SetViewpoint(x: int, y: int, z: int)
      modifies this
      ensures text == SubLine(old(text), PositionKey, Triple(x, y, z))
    {
      Substitute(PositionKey, Triple(x, y, z));
    }
  }

  // ---------------------------------------------------------------------------
  // The file
  // ---------------------------------------------------------------------------

  datatype VrmlError = ValueError | IndexError | AttributeError

  /** The parts `VRML_File.__init__` cuts a file into: two header lines and the raw shapes. */
  datatype Layout = Layout(version: Bytes, comment: Bytes, rawObjects: seq<Bytes>)

  /** `["#" + shape for shape in pieces if shape.strip()]` (line 64). */
  function ShapesOf(pieces: seq<Bytes>): (r: seq<Bytes>)
    ensures |r| <= |pieces|
    ensures forall k :: 0 <= k < |r| ==> |r[k]| >= 1 && r[k][0] == Hash && !Blank(r[k][1..])
  {
    if pieces == [] then []
    else
      var head := if Blank(pieces[0]) then [] else [[Hash] + pieces[0]];
      assert forall k :: 0 <= k < |head| ==> head[k][1..] == pieces[0];
      head + ShapesOf(pieces[1..])
  }

  /** The raw shapes of the text after the header: the pieces between the '#'s that are not blank. */
  function Shapes(bulk: Bytes): (r: seq<Bytes>)
    ensures forall k :: 0 <= k < |r| ==> |r[k]| >= 1 && r[k][0] == Hash && Hash !in r[k][1..] && !Blank(r[k][1..])
  {
    ShapesOfNoHash(Split(bulk, Hash));
    ShapesOf(Split(bulk, Hash))
  }

  lemma {:induction false} ShapesOfNoHash(pieces: seq<Bytes>)
    requires forall k :: 0 <= k < |pieces| ==> Hash !in pieces[k]
    ensures forall k :: 0 <= k < |ShapesOf(pieces)| ==> Hash !in ShapesOf(pieces)[k][1..]
  {
    if pieces != [] {
      ShapesOfNoHash(pieces[1..]);
      var head := if Blank(pieces[0]) then [] else [[Hash] + pieces[0]];
      assert forall k :: 0 <= k < |head| ==> head[k][1..] == pieces[0];
      assert ShapesOf(pieces) == head + ShapesOf(pieces[1..]);
    }
  }

  /**
   * `raw_text.split("\n", 2)` and the shape list (lines 63-66): fewer than
   * two newlines fail to unpack, and a file without shapes has no camera
   * to pop.
   */
  function ParseFile(raw: Bytes): Result<Layout, VrmlError>
  {
    match SourceUnits.SplitAt(raw, Newline)
    case (_, None) => Err(ValueError)
    case (version, Some(afterVersion)) =>
      match SourceUnits.SplitAt(afterVersion, Newline)
      case (_, None) => Err(ValueError)
      case (comment, Some(bulk)) =>
        var shapes := Shapes(bulk);
        if shapes == [] then Err(IndexError) else Ok(Layout(version, comment, shapes))
  }

  /** The file text `write` produces from the header lines and the shapes in order (lines 76-80). */
  function Render(version: Bytes, comment: Bytes, texts: seq<Bytes>): Bytes
  {
    version + [Newline] + comment + [Newline] + Concat(texts)
  }

  /** The rendered text, with the first shape's text spelled out. */
  lemma RenderCons(version: Bytes, comment: Bytes, t: Bytes, texts: seq<Bytes>)
    ensures Render(version, comment, [t] + texts) == version + [Newline] + comment + [Newline] + t + Concat(texts)
  {
    assert ([t] + texts)[1..] == texts;
  }

  /** No piece is blank. */
  predicate NoneBlank(pieces: seq<Bytes>)
  {
    forall k :: 0 <= k < |pieces| ==> !Blank(pieces[k])
  }

  /** A text after the header made of shapes only: it starts with '#' and nothing after a '#' is blank. */
  predicate AllShapes(bulk: Bytes)
  {
    bulk != [] && bulk[0] == Hash && NoneBlank(Split(bulk[1..], Hash))
  }

  /** Shapes with nothing blank between them put back together give the text they were cut from. */
  lemma {:induction false} ConcatShapesOf(pieces: seq<Bytes>)
    requires |pieces| >= 1 && NoneBlank(pieces)
    ensures Concat(ShapesOf(pieces)) == [Hash] + SourceUnits.Join(pieces, Hash)
  {
    var first := [Hash] + pieces[0];
    assert !Blank(pieces[0]);
    if |pieces| > 1 {
      assert NoneBlank(pieces[1..]) by {
        forall k | 0 <= k < |pieces| - 1 ensures !Blank(pieces[1..][k]) {
          assert pieces[1..][k] == pieces[k + 1];
        }
      }
      ConcatShapesOf(pieces[1..]);
      assert ShapesOf(pieces) == [first] + ShapesOf(pieces[1..]);
    } else {
      assert ShapesOf(pieces) == [first] + ShapesOf([]);
    }
  }

  /** The header lines come off first; the rest is cut into shapes. */
  lemma ParseHeader(version: Bytes, comment: Bytes, bulk: Bytes)
    requires Newline !in version && Newline !in comment
    ensures ParseFile(version + [Newline] + comment + [Newline] + bulk)
            == if Shapes(bulk) == [] then Err(IndexError) else Ok(Layout(version, comment, Shapes(bulk)))
  {
    SourceUnits.SplitAtJoin(version, Newline, comment + [Newline] + bulk);
    assert version + [Newline] + comment + [Newline] + bulk == version + [Newline] + (comment + [Newline] + bulk);
    SourceUnits.SplitAtJoin(comment, Newline, bulk);
  }

  /** A text made of shapes only is cut into shapes that put back together give the text. */
  lemma ShapesRoundTrip(bulk: Bytes)
    requires AllShapes(bulk)
    ensures Shapes(bulk) != [] && Concat(Shapes(bulk)) == bulk
  {
    var tail := Split(bulk[1..], Hash);
    assert bulk == [] + [Hash] + bulk[1..];
    SplitCons([], Hash, bulk[1..]);
    assert ([[]] + tail)[1..] == tail;
    assert Blank([]);
    assert Shapes(bulk) == ShapesOf(tail);
    ConcatShapesOf(tail);
    SplitJoin(bulk[1..], Hash);
  }

  /**
   * Reading a file whose header lines are followed by shapes only gives the
   * header and the shapes back, and writing them gives the file back.
   */
  lemma ParseRender(version: Bytes, comment: Bytes, bulk: Bytes)
    requires Newline !in version && Newline !in comment && AllShapes(bulk)
    ensures ParseFile(version + [Newline] + comment + [Newline] + bulk) == Ok(Layout(version, comment, Shapes(bulk)))
    ensures Render(version, comment, Shapes(bulk)) == version + [Newline] + comment + [Newline] + bulk
  {
    ShapesRoundTrip(bulk);
    ParseHeader(version, comment, bulk);
  }

  /** Reading fails to unpack the header exactly when the file has fewer than two newlines. */
  lemma ParseValueError(raw: Bytes)
    ensures ParseFile(raw) == Err(ValueError) <==> |Split(raw, Newline)| < 3
  {
    match SourceUnits.SplitAt(raw, Newline)
    case (_, None) =>
    case (version, Some(afterVersion)) =>
      assert Split(raw, Newline) == [version] + Split(afterVersion, Newline);
      match SourceUnits.SplitAt(afterVersion, Newline)
      case (_, None) =>
      case (comment, Some(bulk)) =>
        assert Split(afterVersion, Newline) == [comment] + Split(bulk, Newline);
  }

  /** The names of the shapes, in order. */
  function Names(objs: seq<VrmlObject>): (r: seq<Bytes>)
    ensures |r| == |objs| && forall k :: 0 <= k < |objs| ==> r[k] == objs[k].name
  {
    if objs == [] then [] else [objs[0].name] + Names(objs[1..])
  }

  /** The names of the shapes that `name` does not select. */
  function KeptNames(names: seq<Bytes>, name: Bytes, partialMatch: bool): (r: seq<Bytes>)
    ensures |r| <= |names|
    ensures forall k :: 0 <= k < |r| ==> !Selected(r[k], name, partialMatch)
  {
    if names == [] then []
    else (if Selected(names[0], name, partialMatch) then [] else [names[0]]) + KeptNames(names[1..], name, partialMatch)
  }

  /** The first `n` shapes that `name` does not select, in order. */
  function KeptUpTo(objs: seq<VrmlObject>, name: Bytes, partialMatch: bool, n: nat): (r: seq<VrmlObject>)
    requires n <= |objs|
    ensures forall k :: 0 <= k < |r| ==> r[k] in objs[..n] && !Selected(r[k].name, name, partialMatch)
  {
    if n == 0 then []
    else
      var before := KeptUpTo(objs, name, partialMatch, n - 1);
      assert forall k :: 0 <= k < |before| ==> before[k] in objs[..n] by {
        assert objs[..n] == objs[..n - 1] + [objs[n - 1]];
      }
      if Selected(objs[n - 1].name, name, partialMatch) then before else before + [objs[n - 1]]
  }

  /** The shapes that `name` does not select, in order: what `remove` leaves (lines 136-145). */
  function Kept(objs: seq<VrmlObject>, name: Bytes, partialMatch: bool): (r: seq<VrmlObject>)
    ensures forall k :: 0 <= k < |r| ==> r[k] in objs && !Selected(r[k].name, name, partialMatch)
  {
    assert objs[..|objs|] == objs;
    KeptUpTo(objs, name, partialMatch, |objs|)
  }

  /** Every shape that `name` does not select is kept. */
  lemma {:induction false} KeptKeeps(objs: seq<VrmlObject>, name: Bytes, partialMatch: bool, n: nat, j: nat)
    requires j < n <= |objs| && !Selected(objs[j].name, name, partialMatch)
    ensures objs[j] in KeptUpTo(objs, name, partialMatch, n)
  {
    if j < n - 1 {
      KeptKeeps(objs, name, partialMatch, n - 1, j);
    }
  }

  /** Keeping shapes keeps their names. */
  lemma {:induction false} KeptNamesOf(objs: seq<VrmlObject>, name: Bytes, partialMatch: bool, n: nat)
    requires n <= |objs|
    ensures Names(KeptUpTo(objs, name, partialMatch, n)) == KeptNames(Names(objs[..n]), name, partialMatch)
  {
    if n > 0 {
      KeptNamesOf(objs, name, partialMatch, n - 1);
      var o := objs[n - 1];
      assert objs[..n] == objs[..n - 1] + [o];
      NamesSnoc(objs[..n - 1], o);
      KeptNamesSnoc(Names(objs[..n - 1]), o.name, name, partialMatch);
      NamesSnoc(KeptUpTo(objs, name, partialMatch, n - 1), o);
    }
  }

  lemma {:induction false} NamesSnoc(objs: seq<VrmlObject>, o: VrmlObject)
    ensures Names(objs + [o]) == Names(objs) + [o.name]
  {
    if objs != [] {
      assert (objs + [o])[1..] == objs[1..] + [o];
      NamesSnoc(objs[1..], o);
    } else {
      assert ([] + [o])[1..] == [];
    }
  }

  lemma {:induction false} KeptNamesSnoc(names: seq<Bytes>, n: Bytes, name: Bytes, partialMatch: bool)
    ensures KeptNames(names + [n], name, partialMatch)
            == KeptNames(names, name, partialMatch) + (if Selected(n, name, partialMatch) then [] else [n])
  {
    if names != [] {
      assert (names + [n])[1..] == names[1..] + [n];
      KeptNamesSnoc(names[1..], n, name, partialMatch);
    } else {
      assert ([] + [n])[1..] == [];
    }
  }

  /** `list.remove(x)`: the first element equal to `x` taken out; the loop below never removes an absent one. */
  function RemoveFirst<T(==)>(s: seq<T>, x: T): (r: seq<T>)
    ensures x in s ==> |r| == |s| - 1
    ensures x !in s ==> r == s
  {
    if s == [] then []
    else if s[0] == x then s[1..]
    else [s[0]] + RemoveFirst(s[1..], x)
  }

  /** Removing the first occurrence of an element the prefix does not hold. */
  lemma {:induction false} RemoveFirstAt<T>(a: seq<T>, x: T, b: seq<T>)
    requires x !in a
    ensures RemoveFirst(a + [x] + b, x) == a + b
  {
    var s := a + [x] + b;
    if a == [] {
      assert s[0] == x && s[1..] == b;
    } else {
      assert s[0] == a[0] != x;
      assert s[1..] == a[1..] + [x] + b;
      RemoveFirstAt(a[1..], x, b);
      assert a == [a[0]] + a[1..];
    }
  }

  /** `list.remove(x)` takes exactly one `x` out of the multiset of entries. */
  lemma {:induction false} RemoveFirstMultiset<T>(s: seq<T>, x: T)
    requires x in s
    ensures multiset(RemoveFirst(s, x)) == multiset(s) - multiset{x}
  {
    if s[0] != x {
      RemoveFirstMultiset(s[1..], x);
      assert s == [s[0]] + s[1..];
    } else {
      assert s == [x] + s[1..];
    }
  }

  /**
   * Where `list.remove(x)` takes `x` out: at its first occurrence, so the
   * result is the list without that one position.
   */
  lemma {:induction false} RemoveFirstIndex<T>(s: seq<T>, x: T) returns (i: nat)
    requires x in s
    ensures i < |s| && s[i] == x && x !in s[..i] && RemoveFirst(s, x) == s[..i] + s[i + 1..]
  {
    if s[0] == x {
      i := 0;
    } else {
      var j := RemoveFirstIndex(s[1..], x);
      i := j + 1;
      assert s[..i] == [s[0]] + s[1..][..j];
      assert s[i + 1..] == s[1..][j + 1..];
    }
  }

  /**
   * `remove` as written (lines 136-145), from pair `k` on.  Python 2's `zip`
   * builds the list of pairs before the loop starts, from the shapes
   * `objs0` (named `names0`) and the raw texts `raws0`, so every shape is
   * visited once; the k-th shape is paired with the k-th raw text, which
   * belongs to the shape before it, since the camera's raw text comes first.
   * A selected shape leaves the list of shapes, and the first raw text equal
   * to its partner leaves the raw texts.  `objs` and `raws` are the two
   * lists as the earlier rounds left them; the result is the two lists left
   * at the end.
   */
  function ZipRemove<T(==)>(objs0: seq<T>, names0: seq<Bytes>, raws0: seq<Bytes>, name: Bytes, partialMatch: bool,
                            k: nat, objs: seq<T>, raws: seq<Bytes>): (r: (seq<T>, seq<Bytes>))
    requires |names0| == |objs0|
    ensures |r.0| <= |objs| && |r.1| <= |raws|
    decreases |objs0| - k
  {
    if k >= |objs0| || k >= |raws0| then (objs, raws)
    else if Selected(names0[k], name, partialMatch) then
      ZipRemove(objs0, names0, raws0, name, partialMatch, k + 1, RemoveFirst(objs, objs0[k]), RemoveFirst(raws, raws0[k]))
    else ZipRemove(objs0, names0, raws0, name, partialMatch, k + 1, objs, raws)
  }

  /**
   * One round of the loop as written on distinct shapes: the shapes the
   * first `k` rounds left, followed by the shapes still to visit, become those
   * of the first `k + 1` rounds followed by the rest.
   */
  lemma ShapesStep(objs0: seq<VrmlObject>, name: Bytes, partialMatch: bool, k: nat)
    requires Distinct(objs0) && k < |objs0|
    ensures var objs := KeptUpTo(objs0, name, partialMatch, k) + objs0[k..];
            var o := objs0[k];
            o in objs
            && (if Selected(o.name, name, partialMatch) then RemoveFirst(objs, o) else objs)
               == KeptUpTo(objs0, name, partialMatch, k + 1) + objs0[k + 1..]
  {
    var before := KeptUpTo(objs0, name, partialMatch, k);
    var o := objs0[k];
    assert objs0[k..] == [o] + objs0[k + 1..];
    assert before + objs0[k..] == before + [o] + objs0[k + 1..];
    if Selected(o.name, name, partialMatch) {
      assert o !in before by {
        forall j | 0 <= j < |before| ensures before[j] != o {
          assert before[j] in objs0[..k];
        }
      }
      RemoveFirstAt(before, o, objs0[k + 1..]);
    }
  }

  /**
   * One round on the raw texts: while the partners still to come are among
   * the texts left, the next one is there to remove, and the rest still are.
   */
  lemma RawsStep(raws0: seq<Bytes>, k: nat, raws: seq<Bytes>)
    requires k < |raws0| && multiset(raws0[k..]) <= multiset(raws)
    ensures raws0[k] in raws
    ensures multiset(raws0[k + 1..]) <= multiset(raws)
    ensures multiset(raws0[k + 1..]) <= multiset(RemoveFirst(raws, raws0[k]))
  {
    assert raws0[k..] == [raws0[k]] + raws0[k + 1..];
    assert raws0[k] in multiset(raws);
    RemoveFirstMultiset(raws, raws0[k]);
  }

  /**
   * What the loop as written leaves, from round `k` on, of distinct shapes
   * with at least as many raw texts: exactly the shapes `name` does not
   * select, and as many fewer raw texts as shapes.  Before round `k` the
   * selected shapes among the first `k` are gone, and the partners still to
   * come are all among the raw texts left, so each `remove` finds its text.
   */
  lemma {:induction false} ZipRemoveKept(objs0: seq<VrmlObject>, raws0: seq<Bytes>, name: Bytes, partialMatch: bool,
                                         k: nat, objs: seq<VrmlObject>, raws: seq<Bytes>)
    requires Distinct(objs0) && k <= |objs0| <= |raws0|
    requires objs == KeptUpTo(objs0, name, partialMatch, k) + objs0[k..]
    requires multiset(raws0[k..]) <= multiset(raws)
    ensures var r := ZipRemove(objs0, Names(objs0), raws0, name, partialMatch, k, objs, raws);
            r.0 == Kept(objs0, name, partialMatch) && |r.1| - |r.0| == |raws| - |objs|
    decreases |objs0| - k
  {
    if k == |objs0| {
      assert objs0[..|objs0|] == objs0;
      assert objs == KeptUpTo(objs0, name, partialMatch, k);
    } else {
      var o := objs0[k];
      ShapesStep(objs0, name, partialMatch, k);
      RawsStep(raws0, k, raws);
      if Selected(o.name, name, partialMatch) {
        ZipRemoveKept(objs0, raws0, name, partialMatch, k + 1, RemoveFirst(objs, o), RemoveFirst(raws, raws0[k]));
      } else {
        ZipRemoveKept(objs0, raws0, name, partialMatch, k + 1, objs, raws);
      }
    }
  }

  /** Taking the first occurrence of a shape out keeps the shapes distinct and without the camera. */
  lemma RemoveFirstValid(objs: seq<VrmlObject>, o: VrmlObject, camera: VrmlObject)
    requires camera !in objs && Distinct(objs)
    ensures camera !in RemoveFirst(objs, o) && Distinct(RemoveFirst(objs, o))
  {
    if o in objs {
      var i := RemoveFirstIndex(objs, o);
      RemoveAtValid(objs, i, camera);
    }
  }

  /** The names of the shapes with these raw texts. */
  function NamesOf(texts: seq<Bytes>): (r: seq<Bytes>)
    ensures |r| == |texts| && forall k :: 0 <= k < |texts| ==> r[k] == ObjectName(texts[k])
  {
    if texts == [] then [] else [ObjectName(texts[0])] + NamesOf(texts[1..])
  }

  /**
   * The raw shapes describe the camera and then the shapes: raw text k + 1
   * names the k-th shape.
   */
  predicate Aligned(names: seq<Bytes>, raws: seq<Bytes>)
  {
    |raws| >= 1 && names == NamesOf(raws[1..])
  }

  /** The texts paired with the shapes that `name` does not select. */
  function Partners(names: seq<Bytes>, texts: seq<Bytes>, name: Bytes, partialMatch: bool): seq<Bytes>
    requires |names| == |texts|
  {
    if names == [] then []
    else
      (if Selected(names[0], name, partialMatch) then [] else [texts[0]])
      + Partners(names[1..], texts[1..], name, partialMatch)
  }

  /** The camera's raw text and those of the kept shapes: what `remove` is meant to leave. */
  function RawsKept(names: seq<Bytes>, raws: seq<Bytes>, name: Bytes, partialMatch: bool): seq<Bytes>
    requires |raws| == |names| + 1
  {
    [raws[0]] + Partners(names, raws[1..], name, partialMatch)
  }

  /** Keeping the partners of the kept shapes keeps them paired. */
  lemma {:induction false} PartnersNames(names: seq<Bytes>, texts: seq<Bytes>, name: Bytes, partialMatch: bool)
    requires names == NamesOf(texts)
    ensures KeptNames(names, name, partialMatch) == NamesOf(Partners(names, texts, name, partialMatch))
  {
    if names != [] {
      assert names[0] == ObjectName(texts[0]) && names[1..] == NamesOf(texts[1..]);
      PartnersNames(names[1..], texts[1..], name, partialMatch);
      var kp := Partners(names[1..], texts[1..], name, partialMatch);
      var kn := KeptNames(names[1..], name, partialMatch);
      if !Selected(names[0], name, partialMatch) {
        assert ([texts[0]] + kp)[1..] == kp;
        assert NamesOf([texts[0]] + kp) == [names[0]] + NamesOf(kp);
        assert KeptNames(names, name, partialMatch) == [names[0]] + kn;
      } else {
        assert KeptNames(names, name, partialMatch) == kn;
        assert Partners(names, texts, name, partialMatch) == kp;
      }
    }
  }

  /** Removing by name as intended keeps the raw shapes aligned with the shapes. */
  lemma RawsKeptAligned(names: seq<Bytes>, raws: seq<Bytes>, name: Bytes, partialMatch: bool)
    requires Aligned(names, raws)
    ensures Aligned(KeptNames(names, name, partialMatch), RawsKept(names, raws, name, partialMatch))
  {
    PartnersNames(names, raws[1..], name, partialMatch);
    var r := RawsKept(names, raws, name, partialMatch);
    assert r[1..] == Partners(names, raws[1..], name, partialMatch);
  }

  /** A one-letter name after '#' is its own name. */
  lemma HashLetterName(x: Byte)
    requires x != Colon && x != Newline && !IsSpace(x)
    ensures ObjectName([Hash, x]) == [Hash, x]
  {
    assert UpTo([x], Newline) == [x];
    assert UpTo([Hash, x], Newline) == [Hash, x];
    assert [Hash, x][..1] == [Hash];
    assert AfterLast([Hash], Colon) == [Hash];
    assert AfterLast([Hash, x], Colon) == [Hash, x];
    assert StripLeft([Hash, x]) == [Hash, x];
    assert StripRight([Hash, x]) == [Hash, x];
  }

  /**
   * `remove` as written misaligns the raw shapes: with the camera "#C"
   * and shapes "#A" and "#B", removing "#B" keeps "#A" but removes its raw
   * text, paired with "#B" because the camera was popped from the shapes
   * only; removing as intended keeps the raw text "#A".
   */
  lemma RemoveMisaligns()
    ensures var names := [[Hash, 65], [Hash, 66]];
            var raws := [[Hash, 67], [Hash, 65], [Hash, 66]];
            var r := ZipRemove([0, 1], names, raws, [Hash, 66], false, 0, [0, 1], raws);
            Aligned(names, raws) && r == ([0], [[Hash, 67], [Hash, 66]])
            && KeptNames(names, [Hash, 66], false) == [[Hash, 65]] && !Aligned([[Hash, 65]], r.1)
            && RawsKept(names, raws, [Hash, 66], false) == [[Hash, 67], [Hash, 65]]
  {
    var a: Bytes := [Hash, 65];
    var b: Bytes := [Hash, 66];
    var c: Bytes := [Hash, 67];
    HashLetterName(65);
    HashLetterName(66);
    var names := [a, b];
    var raws := [c, a, b];
    assert raws[1..] == [a, b] && [a, b][1..] == [b] && [b][1..] == [];
    assert NamesOf([a, b]) == [a, b];
    assert Aligned(names, raws);
    assert !Selected(a, b, false) && Selected(b, b, false);
    assert RemoveFirst([0, 1], 1) == [0];
    assert RemoveFirst(raws, a) == [c, b] by {
      RemoveFirstAt([c], a, [b]);
      assert [c] + [a] + [b] == raws;
    }
    assert [c, b][1..] == [b];
    assert NamesOf([b]) == [b];
    assert KeptNames(names, b, false) == [a];
    assert Partners([b], [b], b, false) == [];
    assert Partners(names, raws[1..], b, false) == [a];
  }

  // ---------------------------------------------------------------------------
  // The output file name
  // ---------------------------------------------------------------------------

  /** The name `write` writes to (lines 73-74): the given name, or the input's with `.wrl` made `_edit.wrl`. */
  function OutputName(inputFilename: Bytes, outputFilename: Option<Bytes>): Bytes
  {
    if outputFilename.None? || outputFilename.value == [] then Replace(inputFilename, WrlSuffix, EditSuffix)
    else outputFilename.value
  }

  /** A text without the pattern has none in its tail either. */
  lemma NotContainsTail(s: Bytes, pat: Bytes)
    requires s != [] && !Contains(s, pat)
    ensures !Contains(s[1..], pat)
  {
    ContainsIff(s, pat);
    ContainsIff(s[1..], pat);
    forall i: nat | OccursAt(s[1..], pat, i) ensures OccursAt(s, pat, i + 1) {
      assert s[1..][i..i + |pat|] == s[i + 1..i + 1 + |pat|];
    }
  }

  /** A name ending in `.wrl` only is written to the same name ending in `_edit.wrl`. */
  lemma {:induction false} DefaultOutputName(stem: Bytes)
    requires !Contains(stem, WrlSuffix)
    ensures OutputName(stem + WrlSuffix, None) == stem + EditSuffix
    decreases |stem|
  {
    var s := stem + WrlSuffix;
    if stem == [] {
      assert s[..4] == WrlSuffix && s[4..] == [];
      assert Replace([], WrlSuffix, EditSuffix) == [];
      assert Replace(s, WrlSuffix, EditSuffix) == EditSuffix + [];
    } else {
      if |stem| >= 4 {
        ContainsIff(stem, WrlSuffix);
        assert s[..4] == stem[..4];
        assert !OccursAt(stem, WrlSuffix, 0);
      } else {
        assert s[|stem|] == 46 && WrlSuffix[|stem|] != 46;
      }
      assert s[..4] != WrlSuffix;
      assert s[1..] == stem[1..] + WrlSuffix;
      NotContainsTail(stem, WrlSuffix);
      DefaultOutputName(stem[1..]);
    }
  }

  // ---------------------------------------------------------------------------
  // The file
  // ---------------------------------------------------------------------------

  /** The texts of the shapes, in order. */
  function Texts(objs: seq<VrmlObject>): (r: seq<Bytes>)
    reads objs
    ensures |r| == |objs| && forall k :: 0 <= k < |objs| ==> r[k] == objs[k].text
  {
    if objs == [] then [] else [objs[0].text] + Texts(objs[1..])
  }

  lemma {:induction false} ConcatSnoc(texts: seq<Bytes>, t: Bytes)
    ensures Concat(texts + [t]) == Concat(texts) + t
  {
    if texts != [] {
      assert (texts + [t])[1..] == texts[1..] + [t];
      ConcatSnoc(texts[1..], t);
    } else {
      assert ([] + [t])[1..] == [];
    }
  }

  /** An opened `.wrl` file: its header lines, its raw shapes, the camera and the other shapes. */
  class VrmlFile {
    const inputFilename: Bytes
    const vrmlVersion: Bytes
    const comment: Bytes
    var rawObjects: seq<Bytes>
    var objects: seq<VrmlObject>
    var camera: VrmlObject

    /** The camera and the shapes are distinct objects, so editing one shape edits no other. */
    ghost predicate Valid()
      reads this
    {
      camera !in objects && Distinct(objects)
    }

    /** The text `write` produces. */
    ghost function Written(): Bytes
      reads this, camera, objects
    {
      Render(vrmlVersion, comment, [camera.text] + Texts(objects))
    }

    /** `VRML_File.__init__` once the text is read and cut (lines 63-66): the first shape is the camera. */
    constructor (filename: Bytes, layout: Layout)
      requires |layout.rawObjects| >= 1
      ensures inputFilename == filename && vrmlVersion == layout.version && comment == layout.comment
      ensures rawObjects == layout.rawObjects
      ensures [camera.text] + Texts(objects) == layout.rawObjects
      ensures Aligned(Names(objects), rawObjects)
      ensures Valid()
      ensures fresh(camera)
      ensures forall k :: 0 <= k < |objects| ==> fresh(objects[k])
    {
      var raws := layout.rawObjects;
      var objs := MakeObjects(raws);
      PopCamera(objs, raws);
      inputFilename := filename;
      vrmlVersion := layout.version;
      comment := layout.comment;
      rawObjects := raws;
      objects := objs[1..];
      camera := objs[0];
    }

    /** `[VRML_Object(raw_object) for raw_object in raws]` (line 65). */
    static method MakeObjects(raws: seq<Bytes>) returns (objs: seq<VrmlObject>)
      ensures Texts(objs) == raws && Names(objs) == NamesOf(raws) && Distinct(objs)
      ensures forall k :: 0 <= k < |objs| ==> fresh(objs[k])
    {
      objs := [];
      var i := 0;
      while i < |raws|
        invariant 0 <= i <= |raws| && |objs| == i
        invariant forall k :: 0 <= k < i ==> fresh(objs[k]) && objs[k].text == raws[k] && objs[k].name == ObjectName(raws[k])
        invariant Distinct(objs)
      {
        var o := new VrmlObject(raws[i]);
        ghost var before := objs;
        objs := objs + [o];
        assert forall k :: 0 <= k < i ==> objs[k] == before[k];
        assert objs[i] == o;
        i := i + 1;
      }
    }

    /** Opens a file given its name and its text: `VRML_File(filename)` with the reading left out. */
    static method Open(filename: Bytes, rawText: Bytes) returns (r: Result<VrmlFile, VrmlError>)
      ensures ParseFile(rawText).Err? ==> r == Err(ParseFile(rawText).error)
      ensures ParseFile(rawText).Ok? ==>
                r.Ok? && fresh(r.value) && r.value.Valid() && r.value.inputFilename == filename
                && ParseFile(rawText).value == Layout(r.value.vrmlVersion, r.value.comment, r.value.rawObjects)
                && r.value.Written() == Render(r.value.vrmlVersion, r.value.comment, r.value.rawObjects)
                && Aligned(Names(r.value.objects), r.value.rawObjects)
    {
      match ParseFile(rawText)
      case Err(e) =>
        r := Err(e);
      case Ok(layout) =>
        var f := new VrmlFile(filename, layout);
        r := Ok(f);
    }

    /** `write` (lines 68-81): the name written to and the text written, the camera first. */
    method Write(outputFilename: Option<Bytes>) returns (name: Bytes, contents: Bytes)
      ensures name == OutputName(inputFilename, outputFilename)
      ensures contents == Written()
    {
      name := OutputName(inputFilename, outputFilename);
      contents := vrmlVersion + [Newline];
      contents := contents + comment + [Newline];
      contents := contents + camera.text;
      ghost var head := contents;
      ghost var texts := Texts(objects);
      var i := 0;
      while i < |objects|
        invariant 0 <= i <= |objects|
        invariant contents == head + Concat(texts[..i])
      {
        var t := objects[i].text;
        assert texts[..i + 1] == texts[..i] + [t];
        ConcatSnoc(texts[..i], t);
        contents := contents + t;
        i := i + 1;
      }
      assert texts[..i] == texts;
      RenderCons(vrmlVersion, comment, camera.text, texts);
    }

    /** `set_viewpoint` (lines 84-86): the camera's position lines are rewritten. */
    method SetViewpoint(x: int, y: int, z: int)
      modifies camera
      ensures camera.text == SubLine(old(camera.text), PositionKey, Triple(x, y, z))
    {
      camera.SetViewpoint(x, y, z);
    }

    /** Rewrites the `key` lines of every shape `name` selects; the camera is never among them. */
    method EditSelected(name: Bytes, partialMatch: bool, key: Bytes, value: Bytes)
      requires Valid() && IsKey(key)
      modifies objects
      ensures forall k :: 0 <= k < |objects| ==>
                objects[k].text == if Selected(objects[k].name, name, partialMatch)
                                   then SubLine(old(objects[k].text), key, value) else old(objects[k].text)
    {
      var i := 0;
      while i < |objects|
        invariant 0 <= i <= |objects|
        invariant forall k :: 0 <= k < i ==>
                    objects[k].text == if Selected(objects[k].name, name, partialMatch)
                                       then SubLine(old(objects[k].text), key, value) else old(objects[k].text)
        invariant forall k :: i <= k < |objects| ==> objects[k].text == old(objects[k].text)
      {
        var o := objects[i];
        assert forall k :: 0 <= k < |objects| && k != i ==> objects[k] != o;
        if Selected(o.name, name, partialMatch) {
          o.Substitute(key, value);
        }
        i := i + 1;
      }
    }

    /** `set_transparency` (lines 88-105); `t` is the `%f` text of the transparency. */
    method SetTransparency(name: Bytes, t: Bytes, partialMatch: bool)
      requires Valid()
      modifies objects
      ensures forall k :: 0 <= k < |objects| ==>
                objects[k].text == if Selected(objects[k].name, name, partialMatch)
                                   then SubLine(old(objects[k].text), TransparencyKey, t) else old(objects[k].text)
    {
      EditSelected(name, partialMatch, TransparencyKey, t);
    }

    /** `set_color` (lines 107-124). */
    method SetColor(name: Bytes, r: int, g: int, b: int, partialMatch: bool)
      requires Valid()
      modifies objects
      ensures forall k :: 0 <= k < |objects| ==>
                objects[k].text == if Selected(objects[k].name, name, partialMatch)
                                   then SubLine(old(objects[k].text), DiffuseColorKey, Triple(r, g, b))
                                   else old(objects[k].text)
    {
      EditSelected(name, partialMatch, DiffuseColorKey, Triple(r, g, b));
    }

    /**
     * `remove` as written (lines 126-145): `zip` pairs the shapes with the
     * raw texts once, before the loop; each selected shape leaves the list,
     * and so does the first raw text equal to the one it was paired with.
     * From a file with at least as many raw texts as shapes, as `Open` makes
     * them, the shapes left are those `name` does not select, and the raw
     * texts lose as many entries as the shapes.
     */
    method Remove(name: Bytes, partialMatch: bool)
      requires Valid()
      modifies this
      ensures Valid() && camera == old(camera)
      ensures (objects, rawObjects)
              == ZipRemove(old(objects), Names(old(objects)), old(rawObjects), name, partialMatch, 0, old(objects), old(rawObjects))
      ensures |old(rawObjects)| >= |old(objects)| ==>
                objects == Kept(old(objects), name, partialMatch)
                && |rawObjects| - |objects| == |old(rawObjects)| - |old(objects)|
    {
      var objs0 := objects;
      var raws0 := rawObjects;
      ghost var names0 := Names(objs0);
      var k := 0;
      while k < |objs0| && k < |raws0|
        invariant Valid() && camera == old(camera)
        invariant ZipRemove(objs0, names0, raws0, name, partialMatch, k, objects, rawObjects)
                  == ZipRemove(objs0, names0, raws0, name, partialMatch, 0, objs0, raws0)
        decreases |objs0| - k
      {
        var o := objs0[k];
        var raw := raws0[k];
        if Selected(o.name, name, partialMatch) {
          RemoveFirstValid(objects, o, camera);
          objects := RemoveFirst(objects, o);
          rawObjects := RemoveFirst(rawObjects, raw);
        }
        k := k + 1;
      }
      if |raws0| >= |objs0| {
        assert KeptUpTo(objs0, name, partialMatch, 0) + objs0[0..] == objs0;
        ZipRemoveKept(objs0, raws0, name, partialMatch, 0, objs0, raws0);
      }
    }

    /**
     * `remove` as intended: the selected shapes and their own raw texts
     * leave, so the raw texts stay paired with the shapes.
     */
    method RemoveIntended(name: Bytes, partialMatch: bool)
      requires Valid() && Aligned(Names(objects), rawObjects)
      modifies this
      ensures Valid() && camera == old(camera)
      ensures objects == Kept(old(objects), name, partialMatch)
      ensures rawObjects == RawsKept(Names(old(objects)), old(rawObjects), name, partialMatch)
      ensures Aligned(Names(objects), rawObjects)
    {
      var names := Names(objects);
      RawsKeptAligned(names, rawObjects, name, partialMatch);
      KeptNamesOf(objects, name, partialMatch, |objects|);
      assert objects[..|objects|] == objects;
      KeptValid(objects, name, partialMatch, camera);
      rawObjects := RawsKept(names, rawObjects, name, partialMatch);
      objects := Kept(objects, name, partialMatch);
    }

    /**
     * `set_field_of_view` as written (lines 147-158), given the `%f` text of
     * the angle in radians: a camera without a field of view gets a
     * `fieldOfView` line before each `}`; one that has it fails, since the
     * substitution reads the file's missing `text` attribute.
     */
    method SetFieldOfView(radText: Bytes) returns (r: Result<(), VrmlError>)
      modifies camera
      ensures Contains(old(camera.text), FieldOfViewKey) ==> r == Err(AttributeError) && camera.text == old(camera.text)
      ensures !Contains(old(camera.text), FieldOfViewKey) ==>
                r == Ok(()) && camera.text == Replace(old(camera.text), [CloseBrace], FieldOfViewLine(radText) + [CloseBrace])
    {
      if Contains(camera.text, FieldOfViewKey) {
        r := Err(AttributeError);
      } else {
        camera.text := Replace(camera.text, [CloseBrace], FieldOfViewLine(radText) + [CloseBrace]);
        r := Ok(());
      }
    }

    /** `set_field_of_view` as intended: an existing field of view is rewritten in the camera's own text. */
    method SetFieldOfViewIntended(radText: Bytes)
      modifies camera
      ensures Contains(old(camera.text), FieldOfViewKey) ==> camera.text == SubLine(old(camera.text), FieldOfViewKey, radText)
      ensures !Contains(old(camera.text), FieldOfViewKey) ==>
                camera.text == Replace(old(camera.text), [CloseBrace], FieldOfViewLine(radText) + [CloseBrace])
    {
      if Contains(camera.text, FieldOfViewKey) {
        camera.Substitute(FieldOfViewKey, radText);
      } else {
        camera.text := Replace(camera.text, [CloseBrace], FieldOfViewLine(radText) + [CloseBrace]);
      }
    }
  }

  /** `"\t" + "fieldOfView %f" + "\n"`, the line added before a `}` (lines 157-158). */
  function FieldOfViewLine(radText: Bytes): Bytes
  {
    [Tab] + FieldOfViewKey + [Space] + radText + [Newline]
  }

  /** No shape appears twice. */
  predicate Distinct(objs: seq<VrmlObject>)
  {
    forall i, j :: 0 <= i < j < |objs| ==> objs[i] != objs[j]
  }

  /** `objects.pop(0)` (line 66): the camera leaves distinct shapes behind, aligned with the raw texts after its own. */
  lemma PopCamera(objs: seq<VrmlObject>, raws: seq<Bytes>)
    requires |raws| >= 1 && Texts(objs) == raws && Names(objs) == NamesOf(raws) && Distinct(objs)
    ensures objs[0] !in objs[1..] && Distinct(objs[1..])
    ensures [objs[0].text] + Texts(objs[1..]) == raws && Names(objs[1..]) == NamesOf(raws[1..])
  {
    var rest := objs[1..];
    assert forall k :: 0 <= k < |rest| ==> rest[k] == objs[k + 1];
  }

  /** Taking one shape out keeps the shapes distinct and without the camera. */
  lemma RemoveAtValid(objs: seq<VrmlObject>, i: nat, camera: VrmlObject)
    requires i < |objs| && camera !in objs && Distinct(objs)
    ensures var r := objs[..i] + objs[i + 1..];
      camera !in r && Distinct(r) && objs[i] !in objs[..i]
  {
    var r := objs[..i] + objs[i + 1..];
    assert forall k :: 0 <= k < |r| ==> r[k] == objs[if k < i then k else k + 1];
  }

  /** The kept shapes are distinct and do not hold the camera when the shapes did not. */
  lemma KeptValid(objs: seq<VrmlObject>, name: Bytes, partialMatch: bool, camera: VrmlObject)
    requires camera !in objs && Distinct(objs)
    ensures camera !in Kept(objs, name, partialMatch) && Distinct(Kept(objs, name, partialMatch))
  {
    assert objs[..|objs|] == objs;
    KeptDistinct(objs, name, partialMatch, |objs|);
    var r := Kept(objs, name, partialMatch);
    forall k | 0 <= k < |r| ensures r[k] != camera {
      assert r[k] in objs;
    }
  }

  lemma {:induction false} KeptDistinct(objs: seq<VrmlObject>, name: Bytes, partialMatch: bool, n: nat)
    requires n <= |objs| && Distinct(objs)
    ensures Distinct(KeptUpTo(objs, name, partialMatch, n))
  {
    if n > 0 {
      KeptDistinct(objs, name, partialMatch, n - 1);
      var before := KeptUpTo(objs, name, partialMatch, n - 1);
      var o := objs[n - 1];
      if !Selected(o.name, name, partialMatch) {
        var r := before + [o];
        forall k | 0 <= k < |before| ensures before[k] != o {
          assert before[k] in objs[..n - 1];
        }
        forall i, j | 0 <= i < j < |r| ensures r[i] != r[j] {
          if j < |before| {
            assert r[i] == before[i] && r[j] == before[j];
          } else {
            assert r[i] == before[i] && r[j] == o;
          }
        }
      }
    }
  }

  /**
   * `set_field_of_view` as written fails when called a second time: once a
   * `fieldOfView` line has been added before a `}`, the camera holds the key.
   */
  lemma FieldOfViewTwiceFails(text: Bytes, radText: Bytes)
    requires CloseBrace in text
    ensures Contains(Replace(text, [CloseBrace], FieldOfViewLine(radText) + [CloseBrace]), FieldOfViewKey)
  {
    var rep := FieldOfViewLine(radText) + [CloseBrace];
    assert rep == [Tab] + FieldOfViewKey + ([Space] + radText + [Newline] + [CloseBrace]);
    assert OccursAt(rep, FieldOfViewKey, 1) by {
      assert rep[1..1 + |FieldOfViewKey|] == FieldOfViewKey;
    }
    ReplaceShowsKey(text, rep, 1);
    var out := Replace(text, [CloseBrace], rep);
    ContainsIff(out, FieldOfViewKey);
  }

  /** Replacing every `}` of a text that has one by a text holding the key leaves the key in the result. */
  lemma {:induction false} ReplaceShowsKey(s: Bytes, rep: Bytes, i: nat)
    requires CloseBrace in s && OccursAt(rep, FieldOfViewKey, i)
    ensures exists j :: OccursAt(Replace(s, [CloseBrace], rep), FieldOfViewKey, j)
    decreases |s|
  {
    var tail := Replace(s[1..], [CloseBrace], rep);
    if s[..1] == [CloseBrace] {
      assert Replace(s, [CloseBrace], rep) == [] + rep + tail;
      OccursInPart([], rep, tail, FieldOfViewKey, i);
    } else {
      var k :| 0 <= k < |s| && s[k] == CloseBrace;
      assert s[1..][k - 1] == CloseBrace;
      ReplaceShowsKey(s[1..], rep, i);
      var j :| OccursAt(tail, FieldOfViewKey, j);
      assert Replace(s, [CloseBrace], rep) == [s[0]] + tail + [];
      OccursInPart([s[0]], tail, [], FieldOfViewKey, j);
    }
  }
}
