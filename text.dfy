/**
 * The handful of Python `str` operations the service uses: `.lower()`,
 * `.upper()` and `.strip()` over ASCII, `split(c)`, `rsplit('.', 1)` and the
 * extension test built from it, and `os.path.join` for two parts.
 */
module Text {

  predicate IsAsciiUpper(c: char) { 'A' <= c <= 'Z' }
  predicate IsAsciiLower(c: char) { 'a' <= c <= 'z' }

  function LowerChar(c: char): char {
    if IsAsciiUpper(c) then (c as int + 32) as char else c
  }

  function UpperChar(c: char): char {
    if IsAsciiLower(c) then (c as int - 32) as char else c
  }

  /** `s.lower()` with ASCII case mapping. */
  function Lower(s: string): (r: string)
    ensures |r| == |s|
    ensures forall i :: 0 <= i < |s| ==> r[i] == LowerChar(s[i])
  {
    seq(|s|, i requires 0 <= i < |s| => LowerChar(s[i]))
  }

  /** `s.upper()` with ASCII case mapping. */
  function Upper(s: string): (r: string)
    ensures |r| == |s|
    ensures forall i :: 0 <= i < |s| ==> r[i] == UpperChar(s[i])
  {
    seq(|s|, i requires 0 <= i < |s| => UpperChar(s[i]))
  }

  /** Lowering twice is lowering once, so lowered keys are stable. */
  lemma LowerIdempotent(s: string)
    ensures Lower(Lower(s)) == Lower(s)
  {
  }

  /** The ASCII characters Python's `str.isspace` accepts. */
  predicate IsSpace(c: char) {
    var n := c as int;
    n == 32 || 9 <= n <= 13 || 28 <= n <= 31
  }

  function StripLeft(s: string): (r: string)
    ensures |r| <= |s| && r == s[|s| - |r|..]
    ensures forall i :: 0 <= i < |s| - |r| ==> IsSpace(s[i])
    ensures r == [] || !IsSpace(r[0])
  {
    if |s| > 0 && IsSpace(s[0]) then StripLeft(s[1..]) else s
  }

  function StripRight(s: string): (r: string)
    ensures |r| <= |s| && r == s[..|r|]
    ensures forall i :: |r| <= i < |s| ==> IsSpace(s[i])
    ensures r == [] || !IsSpace(r[|r| - 1])
  {
    if |s| > 0 && IsSpace(s[|s| - 1]) then StripRight(s[..|s| - 1]) else s
  }

  /** `s.strip()`: the longest infix of `s` that starts and ends with a non-space. */
  function Strip(s: string): (r: string)
    ensures |r| <= |s|
    ensures r == [] || (!IsSpace(r[0]) && !IsSpace(r[|r| - 1]))
  {
    StripRight(StripLeft(s))
  }

  /** Text with no surrounding space is left alone by `strip()`. */
  lemma StripUnchanged(s: string)
    requires s == [] || (!IsSpace(s[0]) && !IsSpace(s[|s| - 1]))
    ensures Strip(s) == s
  {
  }

  /** Every character is whitespace (Python's `isspace` on each). */
  predicate AllSpace(s: string) { forall i :: 0 <= i < |s| ==> IsSpace(s[i]) }

  lemma {:induction false} StripLeftPadding(pad: string, t: string)
    requires AllSpace(pad) && (t == [] || !IsSpace(t[0]))
    ensures StripLeft(pad + t) == t
  {
    if pad != [] {
      assert (pad + t)[1..] == pad[1..] + t;
      StripLeftPadding(pad[1..], t);
    }
  }

  lemma {:induction false} StripRightPadding(t: string, pad: string)
    requires AllSpace(pad) && (t == [] || !IsSpace(t[|t| - 1]))
    ensures StripRight(t + pad) == t
  {
    if pad != [] {
      assert (t + pad)[..|t + pad| - 1] == t + pad[..|pad| - 1];
      StripRightPadding(t, pad[..|pad| - 1]);
    }
  }

  /** `strip()` removes surrounding whitespace and nothing of the text inside it. */
  lemma StripPadding(left: string, t: string, right: string)
    requires AllSpace(left) && AllSpace(right)
    requires t == [] || (!IsSpace(t[0]) && !IsSpace(t[|t| - 1]))
    ensures Strip(left + t + right) == t
  {
    assert left + t + right == left + (t + right);
    if t == [] {
      assert AllSpace(t + right);
      StripLeftPadding(left + right, []);
      assert left + right + [] == left + right;
    } else {
      StripLeftPadding(left, t + right);
    }
    StripRightPadding(t, right);
  }

  /** `s.split(sep)`: the pieces between occurrences of `sep`, always at least one. */
  function Split(s: string, sep: char): (r: seq<string>)
    ensures |r| >= 1
    ensures forall k :: 0 <= k < |r| ==> sep !in r[k]
  {
    if |s| == 0 then [""]
    else if s[0] == sep then [""] + Split(s[1..], sep)
    else
      var rest := Split(s[1..], sep);
      [[s[0]] + rest[0]] + rest[1..]
  }

  /** Text without the separator is a single piece. */
  lemma {:induction false} SplitNoSep(a: string, sep: char)
    requires sep !in a
    ensures Split(a, sep) == [a]
  {
    if |a| > 0 {
      SplitNoSep(a[1..], sep);
      assert [a[0]] + a[1..] == a;
    }
  }

  /** Splitting at the first separator peels off the text before it. */
  lemma {:induction false} SplitFirst(a: string, sep: char, b: string)
    requires sep !in a
    ensures Split(a + [sep] + b, sep) == [a] + Split(b, sep)
  {
    if |a| == 0 {
      assert a + [sep] + b == [sep] + b;
      assert ([sep] + b)[1..] == b;
    } else {
      SplitFirst(a[1..], sep, b);
      assert (a + [sep] + b)[1..] == a[1..] + [sep] + b;
      assert [a[0]] + a[1..] == a;
    }
  }

  /** The text after the last `c`; `s.rsplit(c, 1)[1]` when `c in s`. */
  function AfterLast(s: string, c: char): (r: string)
    requires c in s
    ensures |r| < |s| && s[|s| - |r| - 1] == c && r == s[|s| - |r|..]
    ensures c !in r
  {
    if s[|s| - 1] == c then ""
    else
      assert c in s[..|s| - 1] by {
        var k :| 0 <= k < |s| && s[k] == c;
        assert s[..|s| - 1][k] == c;
      }
      AfterLast(s[..|s| - 1], c) + [s[|s| - 1]]
  }

  /** Whatever follows the last `c` is what `AfterLast` returns. */
  lemma {:induction false} AfterLastOf(name: string, c: char, ext: string)
    requires c !in ext
    ensures c in name + [c] + ext
    ensures AfterLast(name + [c] + ext, c) == ext
  {
    var s := name + [c] + ext;
    assert s[|name|] == c;
    if |ext| > 0 {
      var ext' := ext[..|ext| - 1];
      assert s[..|s| - 1] == name + [c] + ext';
      AfterLastOf(name, c, ext');
      assert ext' + [ext[|ext| - 1]] == ext;
    }
  }

  /** `'.' in f and f.rsplit('.', 1)[1].lower() in exts`. */
  predicate HasExtensionIn(filename: string, exts: set<string>) {
    '.' in filename && Lower(AfterLast(filename, '.')) in exts
  }

  /**
   * The extension test reads the text after the LAST dot: it holds exactly
   * when the filename is `name + "." + ext` with no dot in `ext` and the
   * lower-cased `ext` allowed.
   */
  lemma ExtensionSpec(filename: string, exts: set<string>)
    ensures HasExtensionIn(filename, exts) <==>
      exists name, ext :: filename == name + "." + ext && '.' !in ext && Lower(ext) in exts
  {
    if HasExtensionIn(filename, exts) {
      var ext := AfterLast(filename, '.');
      var name := filename[..|filename| - |ext| - 1];
      assert filename == name + "." + ext;
    }
    if exists name, ext :: filename == name + "." + ext && '.' !in ext && Lower(ext) in exts {
      var name, ext :| filename == name + "." + ext && '.' !in ext && Lower(ext) in exts;
      AfterLastOf(name, '.', ext);
    }
  }

  /** `os.path.join(dir, name)` for two parts on a POSIX system. */
  function JoinPath(dir: string, name: string): (r: string)
    ensures |name| > 0 && name[0] == '/' ==> r == name
  {
    if |name| > 0 && name[0] == '/' then name
    else if dir == [] || dir[|dir| - 1] == '/' then dir + name
    else dir + "/" + name
  }
}
