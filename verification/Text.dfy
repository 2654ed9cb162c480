/** The string operations the parsers and printers use, as Go's strings package defines them on valid text. */
module Text {

  /** unicode.IsSpace. */
  predicate IsSpace(c: char) {
    c in {'\t', '\n', '\U{000B}', '\U{000C}', '\r', ' ', '\U{0085}', '\U{00A0}', '\U{1680}', '\U{2028}', '\U{2029}',
          '\U{202F}', '\U{205F}', '\U{3000}'}
    || '\U{2000}' <= c <= '\U{200A}'
  }

  function TrimLeft(s: string): string {
    if s != "" && IsSpace(s[0]) then TrimLeft(s[1..]) else s
  }

  function TrimRight(s: string): string {
    if s != "" && IsSpace(s[|s| - 1]) then TrimRight(s[..|s| - 1]) else s
  }

  /** strings.TrimSpace. */
  function Trim(s: string): string {
    TrimRight(TrimLeft(s))
  }

  /** strings.Split by a one-character separator: always at least one part. */
  function Split(s: string, sep: char): (parts: seq<string>)
    ensures |parts| >= 1
  {
    if s == "" then [""]
    else
      var rest := Split(s[1..], sep);
      if s[0] == sep then [""] + rest else [[s[0]] + rest[0]] + rest[1..]
  }

  /** strings.Join. */
  function Join(parts: seq<string>, sep: string): string {
    if |parts| == 0 then "" else if |parts| == 1 then parts[0] else parts[0] + sep + Join(parts[1..], sep)
  }

  /** The cells of one CSV line: split at the commas, each trimmed. */
  function Fields(line: string): (cells: seq<string>)
    ensures |cells| == |Split(line, ',')|
  {
    var parts := Split(line, ',');
    seq(|parts|, i requires 0 <= i < |parts| => Trim(parts[i]))
  }

  function ToLowerChar(c: char): char {
    if 'A' <= c <= 'Z' then c - 'A' + 'a' else c
  }

  /** strings.ToLower on ASCII letters. */
  function ToLower(s: string): (t: string)
    ensures |t| == |s|
  {
    seq(|s|, i requires 0 <= i < |s| => ToLowerChar(s[i]))
  }

  /** strings.TrimPrefix. */
  function TrimPrefix(s: string, prefix: string): string {
    if prefix <= s then s[|prefix|..] else s
  }

  /** A prefix that is there goes, once; otherwise nothing does. */
  lemma PrefixTrimmed(s: string, prefix: string, rest: string)
    ensures TrimPrefix(prefix + rest, prefix) == rest
    ensures !(prefix <= s) ==> TrimPrefix(s, prefix) == s
  {
    assert prefix <= prefix + rest && (prefix + rest)[|prefix|..] == rest;
  }

  predicate Blank(s: string) { forall i :: 0 <= i < |s| ==> IsSpace(s[i]) }

  // ---------------------------------------------------------------- trimming

  lemma {:induction false} TrimLeftAt(s: string) returns (k: nat)
    ensures k <= |s| && TrimLeft(s) == s[k..] && Blank(s[..k])
    ensures k < |s| ==> !IsSpace(s[k])
  {
    if s != "" && IsSpace(s[0]) {
      k := TrimLeftAt(s[1..]);
      assert s[1..][k..] == s[k + 1..] && s[..k + 1] == [s[0]] + s[1..][..k];
      k := k + 1;
    } else {
      k := 0;
    }
  }

  lemma {:induction false} TrimRightAt(s: string) returns (k: nat)
    ensures k <= |s| && TrimRight(s) == s[..k] && Blank(s[k..])
    ensures k > 0 ==> !IsSpace(s[k - 1])
    decreases |s|
  {
    if s != "" && IsSpace(s[|s| - 1]) {
      var n := |s| - 1;
      k := TrimRightAt(s[..n]);
      assert s[..n][..k] == s[..k] && s[k..] == s[..n][k..] + [s[n]];
    } else {
      k := |s|;
    }
  }

  lemma BlankTrims(s: string)
    ensures Blank(s) <==> Trim(s) == ""
    ensures Blank(s) ==> TrimLeft(s) == "" == TrimRight(s)
  {
    var k := TrimLeftAt(s);
    var j := TrimRightAt(s[k..]);
    var i := TrimRightAt(s);
  }

  lemma {:induction false} TrimLeftSkips(pre: string, s: string)
    requires Blank(pre)
    ensures TrimLeft(pre + s) == TrimLeft(s)
    decreases |pre|
  {
    if pre == "" {
      assert pre + s == s;
    } else {
      assert (pre + s)[1..] == pre[1..] + s;
      TrimLeftSkips(pre[1..], s);
    }
  }

  lemma {:induction false} TrimRightSkips(s: string, post: string)
    requires Blank(post)
    ensures TrimRight(s + post) == TrimRight(s)
    decreases |post|
  {
    if post == "" {
      assert s + post == s;
    } else {
      var n := |post| - 1;
      assert (s + post)[..|s + post| - 1] == s + post[..n];
      TrimRightSkips(s, post[..n]);
    }
  }

  lemma {:induction false} TrimRightKeeps(s: string, t: string)
    requires t != "" && !Blank(t)
    ensures TrimRight(s + t) == s + TrimRight(t)
    decreases |t|
  {
    var n := |t| - 1;
    if IsSpace(t[n]) {
      assert (s + t)[..|s + t| - 1] == s + t[..n];
      assert forall i :: 0 <= i < n ==> t[i] == t[..n][i];
      TrimRightKeeps(s, t[..n]);
    }
  }

  lemma {:induction false} TrimLeftKeeps(s: string, t: string)
    requires s != "" && !Blank(s)
    ensures TrimLeft(s + t) == TrimLeft(s) + t
    decreases |s|
  {
    if IsSpace(s[0]) {
      assert (s + t)[1..] == s[1..] + t;
      assert forall i :: 0 < i < |s| ==> s[i] == s[1..][i - 1];
      TrimLeftKeeps(s[1..], t);
    }
  }

  /** Trimming forgets blanks on either side. */
  lemma TrimAround(pre: string, s: string, post: string)
    requires Blank(pre) && Blank(post)
    ensures Trim(pre + s + post) == Trim(s)
  {
    assert pre + s + post == pre + (s + post);
    TrimLeftSkips(pre, s + post);
    if Blank(s) {
      BlankTrims(s);
      BlankTrims(s + post);
    } else {
      TrimLeftKeeps(s, post);
      TrimRightSkips(TrimLeft(s), post);
    }
  }

  lemma TrimIs(s: string) returns (pre: string, post: string)
    ensures s == pre + Trim(s) + post && Blank(pre) && Blank(post)
  {
    var k := TrimLeftAt(s);
    var t := s[k..];
    var j := TrimRightAt(t);
    pre, post := s[..k], t[j..];
    assert s == s[..k] + t && t == t[..j] + t[j..];
  }

  lemma TrimIdempotent(s: string)
    ensures Trim(Trim(s)) == Trim(s)
  {
    var pre, post := TrimIs(s);
    TrimAround(pre, Trim(s), post);
  }

  lemma TrimSubset(s: string, c: char)
    requires c !in s
    ensures c !in Trim(s)
  {
    var pre, post := TrimIs(s);
    assert forall i :: 0 <= i < |Trim(s)| ==> Trim(s)[i] == s[|pre| + i];
  }

  // ---------------------------------------------------------------- splitting and joining

  lemma {:induction false} SplitWhole(s: string, sep: char)
    requires sep !in s
    ensures Split(s, sep) == [s]
  {
    if s != "" {
      assert s == [s[0]] + s[1..];
      SplitWhole(s[1..], sep);
    }
  }

  lemma {:induction false} SplitFirst(a: string, sep: char, b: string)
    requires sep !in a
    ensures Split(a + [sep] + b, sep) == [a] + Split(b, sep)
    decreases |a|
  {
    if a == "" {
      assert (a + [sep] + b)[1..] == b;
    } else {
      assert a == [a[0]] + a[1..];
      assert (a + [sep] + b)[1..] == a[1..] + [sep] + b;
      SplitFirst(a[1..], sep, b);
    }
  }

  /** Splitting undoes joining, when no part holds the separator. */
  lemma {:induction false} SplitJoin(parts: seq<string>, sep: char)
    requires parts != [] && forall i :: 0 <= i < |parts| ==> sep !in parts[i]
    ensures Split(Join(parts, [sep]), sep) == parts
    decreases |parts|
  {
    if |parts| == 1 {
      SplitWhole(parts[0], sep);
    } else {
      SplitJoin(parts[1..], sep);
      SplitFirst(parts[0], sep, Join(parts[1..], [sep]));
    }
  }

  /** Joining undoes splitting, always. */
  lemma {:induction false} JoinSplit(s: string, sep: char)
    ensures Join(Split(s, sep), [sep]) == s
  {
    if s != "" {
      var rest := Split(s[1..], sep);
      JoinSplit(s[1..], sep);
      if s[0] == sep {
        assert ([""] + rest)[1..] == rest;
      } else {
        var parts := [[s[0]] + rest[0]] + rest[1..];
        assert parts[1..] == rest[1..];
      }
    }
  }

  /** No part of a split holds the separator, and parts only hold characters of the whole. */
  lemma {:induction false} SplitClean(s: string, sep: char)
    ensures forall i :: 0 <= i < |Split(s, sep)| ==> sep !in Split(s, sep)[i]
    ensures forall i, c :: 0 <= i < |Split(s, sep)| && c in Split(s, sep)[i] ==> c in s
  {
    if s != "" {
      SplitClean(s[1..], sep);
      assert s == [s[0]] + s[1..];
      var rest, parts := Split(s[1..], sep), Split(s, sep);
      assert forall i :: 1 <= i < |parts| ==> parts[i] == if s[0] == sep then rest[i - 1] else rest[i];
      if s[0] != sep {
        assert parts[0] == [s[0]] + rest[0];
      }
    }
  }

  /** What stands before a string goes to its first part. */
  lemma {:induction false} SplitFront(pre: string, s: string, sep: char)
    requires sep !in pre
    ensures Split(pre + s, sep) == [pre + Split(s, sep)[0]] + Split(s, sep)[1..]
    decreases |pre|
  {
    if pre == "" {
      assert pre + s == s && pre + Split(s, sep)[0] == Split(s, sep)[0];
    } else {
      assert pre == [pre[0]] + pre[1..];
      assert (pre + s)[1..] == pre[1..] + s;
      SplitFront(pre[1..], s, sep);
      assert [pre[0]] + (pre[1..] + Split(s, sep)[0]) == pre + Split(s, sep)[0];
    }
  }

  /** What stands behind a string goes to its last part. */
  lemma {:induction false} SplitBack(s: string, post: string, sep: char)
    requires sep !in post
    ensures var p := Split(s, sep); Split(s + post, sep) == p[|p| - 1 := p[|p| - 1] + post]
    decreases |s|
  {
    if s == "" {
      assert s + post == post;
      SplitWhole(post, sep);
    } else {
      assert (s + post)[1..] == s[1..] + post;
      SplitBack(s[1..], post, sep);
      var p, q := Split(s, sep), Split(s[1..], sep);
      var n := |q| - 1;
      var r := q[n := q[n] + post];
      if s[0] == sep {
        assert p[|p| - 1 := p[|p| - 1] + post] == [""] + r;
      } else if n > 0 {
        assert p[|p| - 1 := p[|p| - 1] + post] == [[s[0]] + r[0]] + r[1..];
      } else {
        assert [s[0]] + (q[0] + post) == [s[0]] + q[0] + post;
      }
    }
  }

  lemma {:induction false} SplitLast(a: string, sep: char, b: string)
    requires sep !in b
    ensures Split(a + [sep] + b, sep) == Split(a, sep) + [b]
    decreases |a|
  {
    if a == "" {
      SplitFirst("", sep, b);
      SplitWhole(b, sep);
    } else {
      SplitLast(a[1..], sep, b);
      assert (a + [sep] + b)[1..] == a[1..] + [sep] + b;
      var rest := Split(a[1..], sep);
      assert (rest + [b])[1..] == rest[1..] + [b];
    }
  }

  lemma FieldsTrimFront(pre: string, s: string)
    requires Blank(pre)
    ensures Fields(pre + s) == Fields(s)
  {
    assert ',' !in pre;
    var p := Split(s, ',');
    SplitFront(pre, s, ',');
    TrimAround(pre, p[0], "");
    assert pre + p[0] + "" == pre + p[0];
  }

  lemma FieldsTrimBack(s: string, post: string)
    requires Blank(post)
    ensures Fields(s + post) == Fields(s)
  {
    assert ',' !in post;
    var p := Split(s, ',');
    SplitBack(s, post, ',');
    TrimAround("", p[|p| - 1], post);
    assert "" + p[|p| - 1] + post == p[|p| - 1] + post;
  }

  /** Blanks around a line do not change its cells: a comma is no blank. */
  lemma FieldsTrim(pre: string, s: string, post: string)
    requires Blank(pre) && Blank(post)
    ensures Fields(pre + s + post) == Fields(s)
  {
    FieldsTrimFront(pre, s);
    FieldsTrimBack(pre + s, post);
  }

  /** The cells of a row printed with ", " between them are the printed cells, trimmed. */
  lemma {:induction false} FieldsJoin(cells: seq<string>)
    requires cells != [] && forall i :: 0 <= i < |cells| ==> ',' !in cells[i]
    ensures Fields(Join(cells, ", ")) == seq(|cells|, i requires 0 <= i < |cells| => Trim(cells[i]))
    decreases |cells|
  {
    if |cells| == 1 {
      SplitWhole(cells[0], ',');
    } else {
      var rest := Join(cells[1..], ", ");
      FieldsJoin(cells[1..]);
      assert Join(cells, ", ") == cells[0] + [','] + (" " + rest);
      FieldsFirst(cells[0], " " + rest);
      FieldsTrim(" ", rest, "");
      assert " " + rest + "" == " " + rest;
      var whole := Fields(Join(cells, ", "));
      assert whole == [Trim(cells[0])] + Fields(rest);
    }
  }

  lemma FieldsFirst(a: string, b: string)
    requires ',' !in a
    ensures Fields(a + [','] + b) == [Trim(a)] + Fields(b)
  {
    SplitFirst(a, ',', b);
  }

  predicate Tight(s: string) { s == "" || (!IsSpace(s[0]) && !IsSpace(s[|s| - 1])) }

  lemma TightTrims(s: string)
    requires Tight(s)
    ensures Trim(s) == s
  {
  }
}
