/** String and path helpers shared by every module: the few library operations the
    system relies on (string prefixes and suffixes, splitting and joining, trimming,
    slash-joined paths, decimal formatting), written out so that their behaviour is
    visible to the verifier. */
module Text {

  datatype Option<+T> = None | Some(value: T) {
    function GetOr(default: T): T {
      match this
      case Some(v) => v
      case None => default
    }
  }

  datatype Result<+T, +E> = Ok(value: T) | Err(error: E)

  predicate HasPrefix(s: string, p: string) {
    |p| <= |s| && s[..|p|] == p
  }

  predicate HasSuffix(s: string, p: string) {
    |p| <= |s| && s[|s| - |p|..] == p
  }

  /** strings.TrimPrefix: removes p once when s starts with it. */
  function TrimPrefix(s: string, p: string): (r: string)
    ensures HasPrefix(s, p) ==> s == p + r
    ensures !HasPrefix(s, p) ==> r == s
  {
    if HasPrefix(s, p) then s[|p|..] else s
  }

  /** strings.TrimSuffix: removes p once when s ends with it. */
  function TrimSuffix(s: string, p: string): (r: string)
    ensures HasSuffix(s, p) ==> s == r + p
    ensures !HasSuffix(s, p) ==> r == s
  {
    if HasSuffix(s, p) then s[..|s| - |p|] else s
  }

  /** strings.Contains. */
  predicate Contains(s: string, p: string)
    decreases |s|
  {
    HasPrefix(s, p) || (|s| > 0 && Contains(s[1..], p))
  }

  lemma {:induction false} ContainsAt(s: string, p: string, i: nat)
    requires i + |p| <= |s| && s[i..i + |p|] == p
    ensures Contains(s, p)
    decreases i
  {
    if i == 0 {
      assert s[..|p|] == p;
    } else {
      assert s[1..][i - 1..i - 1 + |p|] == s[i..i + |p|];
      ContainsAt(s[1..], p, i - 1);
    }
  }

  lemma {:induction false} ContainsWitness(s: string, p: string) returns (i: nat)
    requires Contains(s, p)
    ensures i + |p| <= |s| && s[i..i + |p|] == p
    decreases |s|
  {
    if HasPrefix(s, p) {
      i := 0;
    } else {
      var j := ContainsWitness(s[1..], p);
      i := j + 1;
      assert s[1..][j..j + |p|] == s[i..i + |p|];
    }
  }

  /** strings.Split(s, string(sep)) (and JavaScript's split with a one-character
      separator): the pieces between separators, including empty ones. */
  function Split(s: string, sep: char): (r: seq<string>)
    ensures |r| >= 1
    decreases |s|
  {
    if |s| == 0 then [""]
    else
      var rest := Split(s[1..], sep);
      if s[0] == sep then [""] + rest else [[s[0]] + rest[0]] + rest[1..]
  }

  /** strings.Join / Array.prototype.join. */
  function Join(parts: seq<string>, sep: string): string
    decreases |parts|
  {
    if |parts| == 0 then ""
    else if |parts| == 1 then parts[0]
    else parts[0] + sep + Join(parts[1..], sep)
  }

  /** Text without the separator is a single piece. */
  lemma {:induction false} SplitNoSep(s: string, sep: char)
    requires sep !in s
    ensures Split(s, sep) == [s]
    decreases |s|
  {
    if |s| > 0 {
      SplitNoSep(s[1..], sep);
      assert [s[0]] + s[1..] == s;
    }
  }

  /** No piece produced by Split contains the separator. */
  lemma {:induction false} SplitPiecesFree(s: string, sep: char)
    ensures forall k :: 0 <= k < |Split(s, sep)| ==> sep !in Split(s, sep)[k]
    decreases |s|
  {
    if |s| > 0 {
      SplitPiecesFree(s[1..], sep);
    }
  }

  /** Joining the pieces with the separator gives the text back. */
  lemma {:induction false} JoinSplit(s: string, sep: char)
    ensures Join(Split(s, sep), [sep]) == s
    decreases |s|
  {
    if |s| > 0 {
      var rest := Split(s[1..], sep);
      JoinSplit(s[1..], sep);
      if s[0] == sep {
        assert Split(s, sep) == [""] + rest;
        assert s == [sep] + s[1..];
      } else {
        var r := Split(s, sep);
        assert r == [[s[0]] + rest[0]] + rest[1..];
        if |rest| == 1 {
          assert s == [s[0]] + rest[0];
        } else {
          assert r[1..] == rest[1..];
          assert Join(rest, [sep]) == rest[0] + [sep] + Join(rest[1..], [sep]);
          assert s == [s[0]] + s[1..];
        }
      }
    }
  }

  /** Splitting text made by joining separator-free pieces gives the pieces back. */
  lemma {:induction false} SplitJoin(parts: seq<string>, sep: char)
    requires |parts| >= 1
    requires forall k :: 0 <= k < |parts| ==> sep !in parts[k]
    ensures Split(Join(parts, [sep]), sep) == parts
    decreases |parts|, |parts[0]|
  {
    if |parts[0]| > 0 {
      var p0 := parts[0];
      var tail := [p0[1..]] + parts[1..];
      assert tail[0] == p0[1..];
      assert forall k :: 0 <= k < |tail| ==> sep !in tail[k];
      SplitJoin(tail, sep);
      JoinFirst(parts, sep);
      JoinFirst(tail, sep);
      assert tail[1..] == parts[1..];
      var s := Join(parts, [sep]);
      assert s[1..] == Join(tail, [sep]);
      assert s[0] == p0[0] && p0[0] != sep;
      assert Split(s, sep) == [[p0[0]] + tail[0]] + tail[1..];
      assert [p0[0]] + p0[1..] == p0;
    } else if |parts| > 1 {
      SplitJoin(parts[1..], sep);
      var s := Join(parts, [sep]);
      assert s == [sep] + Join(parts[1..], [sep]);
      assert s[1..] == Join(parts[1..], [sep]);
      assert parts == [""] + parts[1..];
    }
  }

  lemma JoinFirst(parts: seq<string>, sep: char)
    requires |parts| >= 1
    ensures Join(parts, [sep]) == parts[0] + Join([""] + parts[1..], [sep])
  {
    if |parts| > 1 {
      assert ([""] + parts[1..])[1..] == parts[1..];
    }
  }

  predicate IsSpace(c: char) {
    c == ' ' || c == '\t' || c == '\n' || c == '\r' || c == '\U{000B}' || c == '\U{000C}'
  }

  function TrimLeft(s: string): (r: string)
    ensures |r| <= |s| && r == s[|s| - |r|..]
    ensures r == [] || !IsSpace(r[0])
    decreases |s|
  {
    if |s| > 0 && IsSpace(s[0]) then TrimLeft(s[1..]) else s
  }

  function TrimRight(s: string): (r: string)
    ensures |r| <= |s| && r == s[..|r|]
    ensures r == [] || !IsSpace(r[|r| - 1])
    decreases |s|
  {
    if |s| > 0 && IsSpace(s[|s| - 1]) then TrimRight(s[..|s| - 1]) else s
  }

  /** strings.TrimSpace / String.prototype.trim, for the ASCII white-space characters. */
  function TrimSpace(s: string): (r: string)
    ensures r == [] || (!IsSpace(r[0]) && !IsSpace(r[|r| - 1]))
  {
    TrimRight(TrimLeft(s))
  }

  predicate AllSpace(s: string) {
    forall i :: 0 <= i < |s| ==> IsSpace(s[i])
  }

  lemma {:induction false} TrimLeftEmpty(s: string)
    ensures TrimLeft(s) == [] <==> AllSpace(s)
    decreases |s|
  {
    if |s| > 0 {
      TrimLeftEmpty(s[1..]);
      assert AllSpace(s) <==> IsSpace(s[0]) && AllSpace(s[1..]);
    }
  }

  lemma {:induction false} TrimRightEmpty(s: string)
    ensures TrimRight(s) == [] <==> AllSpace(s)
    decreases |s|
  {
    if |s| > 0 {
      TrimRightEmpty(s[..|s| - 1]);
      assert AllSpace(s) <==> IsSpace(s[|s| - 1]) && AllSpace(s[..|s| - 1]);
    }
  }

  /** Trimming leaves nothing exactly when the text is all white space. */
  lemma TrimSpaceEmpty(s: string)
    ensures TrimSpace(s) == [] <==> AllSpace(s)
  {
    TrimLeftEmpty(s);
    TrimRightEmpty(TrimLeft(s));
  }

  /** path.Join, for clean segments: the non-empty elements joined by "/".  Go's
      cleaning of "." and ".." and of repeated slashes is not modelled. */
  function JoinPath(parts: seq<string>): string {
    Join(NonEmpty(parts), "/")
  }

  function NonEmpty(parts: seq<string>): (r: seq<string>)
    ensures forall k :: 0 <= k < |r| ==> r[k] != "" && r[k] in parts
    ensures |r| <= |parts|
  {
    if |parts| == 0 then []
    else if parts[0] == "" then NonEmpty(parts[1..])
    else [parts[0]] + NonEmpty(parts[1..])
  }

  lemma {:induction false} NonEmptyKeeps(parts: seq<string>, x: string)
    requires x in parts && x != ""
    ensures x in NonEmpty(parts)
    decreases |parts|
  {
    if parts[0] != x {
      assert x in parts[1..];
      NonEmptyKeeps(parts[1..], x);
    }
  }

  /** Joining a non-empty first element with a list that keeps some element:
      the first element, a slash, and the join of the rest. */
  lemma JoinPathCons(first: string, rest: seq<string>)
    requires first != "" && NonEmpty(rest) != []
    ensures JoinPath([first] + rest) == first + "/" + JoinPath(rest)
  {
    assert ([first] + rest)[1..] == rest;
    var xs := NonEmpty(rest);
    assert NonEmpty([first] + rest) == [first] + xs;
    assert ([first] + xs)[1..] == xs;
  }

  /** Two non-empty parts are joined with one slash. */
  lemma JoinTwo(a: string, b: string)
    requires a != "" && b != ""
    ensures JoinPath([a, b]) == a + "/" + b
  {
    NonEmptyKeeps([b], b);
    JoinPathCons(a, [b]);
    assert [a] + [b] == [a, b];
    assert NonEmpty([b]) == [b];
  }

  lemma {:induction false} JoinSnoc(parts: seq<string>, x: string, sep: string)
    requires |parts| >= 1
    ensures Join(parts + [x], sep) == Join(parts, sep) + sep + x
    decreases |parts|
  {
    if |parts| > 1 {
      assert (parts + [x])[1..] == parts[1..] + [x];
      JoinSnoc(parts[1..], x, sep);
    }
  }

  lemma {:induction false} NonEmptySnoc(parts: seq<string>, x: string)
    requires x != ""
    ensures NonEmpty(parts + [x]) == NonEmpty(parts) + [x]
    decreases |parts|
  {
    if |parts| > 0 {
      assert (parts + [x])[1..] == parts[1..] + [x];
      NonEmptySnoc(parts[1..], x);
    }
  }

  /** A join that keeps some element is not empty. */
  lemma JoinNotEmpty(parts: seq<string>, sep: string)
    requires |parts| >= 1 && parts[0] != ""
    ensures Join(parts, sep) != ""
  {
    if |parts| > 1 {
      assert |Join(parts, sep)| >= |parts[0]|;
    }
  }

  /** Appending a non-empty element to a path that keeps some element adds a
      slash and the element. */
  lemma JoinPathSnoc(parts: seq<string>, x: string)
    requires x != "" && NonEmpty(parts) != []
    ensures JoinPath(parts + [x]) == JoinPath(parts) + "/" + x
    ensures JoinPath(parts) != ""
  {
    NonEmptySnoc(parts, x);
    JoinSnoc(NonEmpty(parts), x, "/");
    JoinNotEmpty(NonEmpty(parts), "/");
  }

  function DropTrailingSlashes(s: string): (r: string)
    ensures |r| <= |s| && r == s[..|r|]
    ensures r == [] || r[|r| - 1] != '/'
    decreases |s|
  {
    if |s| > 0 && s[|s| - 1] == '/' then DropTrailingSlashes(s[..|s| - 1]) else s
  }

  function AfterLastSlash(s: string): (r: string)
    ensures '/' !in r
    ensures |r| <= |s| && r == s[|s| - |r|..]
    decreases |s|
  {
    if |s| == 0 then ""
    else if s[|s| - 1] == '/' then ""
    else AfterLastSlash(s[..|s| - 1]) + [s[|s| - 1]]
  }

  /** filepath.Base on slash-separated paths: "." for the empty path, "/" for a path
      made only of slashes, otherwise the last element after trailing slashes are
      dropped. */
  function Base(p: string): (r: string)
    ensures r != ""
    ensures p != "" && DropTrailingSlashes(p) != "" ==> '/' !in r
  {
    if p == "" then "."
    else
      var d := DropTrailingSlashes(p);
      if d == "" then "/" else AfterLastSlash(d)
  }

  /** The element after the last slash of a path ending in a plain name is that name. */
  lemma {:induction false} AfterLastSlashOfName(d: string, name: string)
    requires '/' !in name
    ensures AfterLastSlash(d + "/" + name) == name
    decreases |name|
  {
    var s := d + "/" + name;
    if |name| == 0 {
      assert s[|s| - 1] == '/';
    } else {
      var init := name[..|name| - 1];
      var last := name[|name| - 1];
      assert last in name;
      AfterLastSlashOfName(d, init);
      assert s[..|s| - 1] == d + "/" + init;
      assert s[|s| - 1] == last;
      assert AfterLastSlash(s) == AfterLastSlash(d + "/" + init) + [last];
      assert name == init + [last];
    }
  }

  /** The base of a path ending in a plain name, with or without one trailing
      slash, is that name. */
  lemma BaseOfName(d: string, name: string)
    requires name != "" && '/' !in name
    ensures Base(d + "/" + name) == name
    ensures Base(d + "/" + name + "/") == name
  {
    var s := d + "/" + name;
    assert name[|name| - 1] in name;
    assert s[|s| - 1] == name[|name| - 1];
    assert DropTrailingSlashes(s) == s;
    assert (s + "/")[..|s|] == s;
    assert DropTrailingSlashes(s + "/") == s;
    AfterLastSlashOfName(d, name);
  }

  function DigitChar(d: nat): char
    requires d < 10
  {
    ('0' as int + d) as char
  }

  function NatToString(n: nat): (r: string)
    ensures |r| >= 1
    decreases n
  {
    if n < 10 then [DigitChar(n)] else NatToString(n / 10) + [DigitChar(n % 10)]
  }

  function DigitsValue(s: string): nat
    decreases |s|
  {
    if |s| == 0 then 0 else DigitsValue(s[..|s| - 1]) * 10 + ((s[|s| - 1] as int - '0' as int) % 10)
  }

  /** Reading the decimal digits back gives the number, and no digit is a
      separator such as ':' or '-'. */
  lemma {:induction false} NatToStringRoundTrip(n: nat)
    ensures DigitsValue(NatToString(n)) == n
    ensures forall i :: 0 <= i < |NatToString(n)| ==> '0' <= NatToString(n)[i] <= '9'
    decreases n
  {
    var r := NatToString(n);
    if n < 10 {
      assert r == [DigitChar(n)];
      assert DigitsValue(r) == DigitsValue(r[..0]) * 10 + (r[0] as int - '0' as int) % 10;
    } else {
      NatToStringRoundTrip(n / 10);
      var init := NatToString(n / 10);
      assert r == init + [DigitChar(n % 10)];
      assert r[..|r| - 1] == init;
      assert (r[|r| - 1] as int - '0' as int) % 10 == n % 10;
      assert DigitsValue(r) == (n / 10) * 10 + n % 10;
      forall i | 0 <= i < |r| ensures '0' <= r[i] <= '9' {
        if i < |init| {
          assert r[i] == init[i];
        }
      }
    }
  }

  /** fmt's %d. */
  function IntToString(n: int): (r: string)
    ensures |r| >= 1
  {
    if n < 0 then "-" + NatToString(-n) else NatToString(n)
  }

  lemma NatToStringInjective(a: nat, b: nat)
    ensures NatToString(a) == NatToString(b) ==> a == b
  {
    NatToStringRoundTrip(a);
    NatToStringRoundTrip(b);
  }

  lemma NatToStringUnsigned(n: nat)
    ensures NatToString(n)[0] != '-'
  {
    NatToStringRoundTrip(n);
    assert '0' <= NatToString(n)[0] <= '9';
  }

  /** Distinct integers print differently. */
  lemma {:induction false} IntToStringInjective(a: int, b: int)
    ensures IntToString(a) == IntToString(b) <==> a == b
  {
    if IntToString(a) == IntToString(b) {
      if a < 0 && b < 0 {
        NatToStringInjective(-a, -b);
        assert NatToString(-a) == IntToString(a)[1..];
        assert NatToString(-b) == IntToString(b)[1..];
      } else if a < 0 {
        NatToStringUnsigned(b);
      } else if b < 0 {
        NatToStringUnsigned(a);
      } else {
        NatToStringInjective(a, b);
      }
    }
  }

  /** A printed integer holds only a sign and digits. */
  lemma IntToStringChars(n: int)
    ensures forall i :: 0 <= i < |IntToString(n)| ==> IntToString(n)[i] == '-' || '0' <= IntToString(n)[i] <= '9'
  {
    NatToStringRoundTrip(if n < 0 then -n else n);
  }
}
