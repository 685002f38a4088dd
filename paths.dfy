/**
 * POSIX paths as pathlib builds them: a string is parsed into a root and
 * its components (empty and "." components dropped), `/` joins with
 * `os.path.join`, and `str`, `name` and `suffix` read the parsed form.
 */
module Paths {
  import opened Text

  /** `"/".join(pieces)`. */
  function JoinWith(pieces: seq<string>): string
  {
    if pieces == [] then ""
    else if |pieces| == 1 then pieces[0]
    else pieces[0] + "/" + JoinWith(pieces[1..])
  }

  /** `s.split("/")`: the pieces between the separators, in order; joining them gives `s` back. */
  function Split(s: string): (pieces: seq<string>)
    ensures |pieces| >= 1
    ensures forall i :: 0 <= i < |pieces| ==> '/' !in pieces[i]
    ensures JoinWith(pieces) == s
    decreases |s|
  {
    var k := IndexOf(s, '/');
    if k < 0 then [s]
    else
      var rest := Split(s[k + 1..]);
      assert ([s[..k]] + rest)[1..] == rest;
      assert s == s[..k] + "/" + s[k + 1..];
      [s[..k]] + rest
  }

  /** Splitting undoes joining: pieces without a separator come back as they were. */
  lemma {:induction false} SplitJoin(pieces: seq<string>)
    requires |pieces| >= 1
    requires forall i :: 0 <= i < |pieces| ==> '/' !in pieces[i]
    ensures Split(JoinWith(pieces)) == pieces
  {
    if |pieces| > 1 {
      var rest := pieces[1..];
      IndexOfAfter(pieces[0], '/', JoinWith(rest));
      var s := pieces[0] + "/" + JoinWith(rest);
      assert s[..|pieces[0]|] == pieces[0];
      assert s[|pieces[0]| + 1..] == JoinWith(rest);
      SplitJoin(rest);
      assert pieces == [pieces[0]] + rest;
    } else {
      assert '/' !in pieces[0];
    }
  }

  /** Joining two non-empty runs of pieces puts one separator between their joins. */
  lemma {:induction false} JoinWithConcat(a: seq<string>, b: seq<string>)
    requires |a| >= 1 && |b| >= 1
    ensures JoinWith(a + b) == JoinWith(a) + "/" + JoinWith(b)
  {
    if |a| == 1 {
      assert (a + b)[1..] == b;
    } else {
      assert (a + b)[1..] == a[1..] + b;
      JoinWithConcat(a[1..], b);
    }
  }

  /** The pieces on both sides of a separator split apart. */
  lemma SplitConcat(a: string, b: string)
    ensures Split(a + "/" + b) == Split(a) + Split(b)
  {
    JoinWithConcat(Split(a), Split(b));
    SplitJoin(Split(a) + Split(b));
  }

  /** The pieces pathlib keeps as components: all but the empty ones and ".". */
  function Kept(pieces: seq<string>): (parts: seq<string>)
    ensures |parts| <= |pieces|
    ensures forall i :: 0 <= i < |parts| ==> parts[i] != "" && parts[i] != "." && parts[i] in pieces
  {
    if pieces == [] then []
    else (if pieces[0] == "" || pieces[0] == "." then [] else [pieces[0]]) + Kept(pieces[1..])
  }

  lemma {:induction false} KeptConcat(a: seq<string>, b: seq<string>)
    ensures Kept(a + b) == Kept(a) + Kept(b)
  {
    if a == [] {
      assert a + b == b;
    } else {
      assert (a + b)[0] == a[0];
      assert (a + b)[1..] == a[1..] + b;
      KeptConcat(a[1..], b);
    }
  }

  /** The components of a path string, in order. */
  function Components(s: string): (parts: seq<string>)
    ensures forall i :: 0 <= i < |parts| ==> parts[i] != "" && parts[i] != "." && '/' !in parts[i]
  {
    Kept(Split(s))
  }

  /** The components on both sides of a separator are kept apart, whatever the separators around them. */
  lemma ComponentsConcat(a: string, b: string)
    ensures Components(a + "/" + b) == Components(a) + Components(b)
  {
    SplitConcat(a, b);
    KeptConcat(Split(a), Split(b));
  }

  /** A parsed path: its root ("", "/" or the POSIX-reserved "//") and its components. */
  datatype PurePath = PurePath(root: string, parts: seq<string>)

  /** The form `Parse` produces: a known root, and components that are neither empty, "." nor contain "/". */
  predicate Normal(p: PurePath)
  {
    && (p.root == "" || p.root == "/" || p.root == "//")
    && forall i :: 0 <= i < |p.parts| ==> p.parts[i] != "" && p.parts[i] != "." && '/' !in p.parts[i]
  }

  /** A relative path has no root; exactly two leading separators are kept, one or three or more become one. */
  function Root(s: string): (r: string)
    ensures r == "" || r == "/" || r == "//"
    ensures r == "" <==> s == "" || s[0] != '/'
    ensures |r| <= |s| && s[..|r|] == r
  {
    if s == "" || s[0] != '/' then ""
    else if |s| >= 2 && s[1] == '/' && !(|s| >= 3 && s[2] == '/') then "//"
    else "/"
  }

  /** `PurePosixPath(s)`. */
  function Parse(s: string): (p: PurePath)
    ensures Normal(p)
  {
    PurePath(Root(s), Components(s))
  }

  /** `str(path)`: the root and the components joined by "/", or "." for the empty relative path. */
  function Format(p: PurePath): (s: string)
    ensures s != ""
    ensures |p.root| <= |s| && (p.root != "" ==> s[..|p.root|] == p.root)
  {
    var s := p.root + JoinWith(p.parts);
    if s == "" then "." else s
  }

  /** `os.path.join(a, b)` on POSIX: an absolute `b` replaces `a`; else one "/" between them unless `a` is empty or ends with one. */
  function PosixJoin(a: string, b: string): (j: string)
    ensures b != "" && b[0] == '/' ==> j == b
    ensures !(b != "" && b[0] == '/') ==>
      && |a| + |b| <= |j| <= |a| + 1 + |b|
      && j[..|a|] == a && j[|j| - |b|..] == b
  {
    if b != "" && b[0] == '/' then b
    else if a == "" || a[|a| - 1] == '/' then a + b
    else a + "/" + b
  }

  /** `path.name`: the last component, or "" when there is none. */
  function Name(p: PurePath): (n: string)
    ensures p.parts != [] ==> n == p.parts[|p.parts| - 1]
    ensures Normal(p) ==> (n == "" <==> p.parts == []) && '/' !in n
  {
    if p.parts == [] then "" else p.parts[|p.parts| - 1]
  }

  /**
   * `path.suffix` of a name: from its last dot on, when that dot is neither
   * the first nor the last character; "" otherwise.
   */
  function Suffix(name: string): (sfx: string)
    ensures sfx != "" <==> exists i :: 0 < i < |name| - 1 && name[i] == '.' && '.' !in name[i + 1..]
    ensures sfx != "" ==> && 2 <= |sfx| < |name| && sfx[0] == '.' && '.' !in sfx[1..]
                          && sfx == name[|name| - |sfx|..]
  {
    var i := LastIndexOf(name, '.');
    if 0 < i < |name| - 1 then
      assert name[i..][1..] == name[i + 1..];
      name[i..]
    else
      assert forall j :: 0 < j < |name| - 1 && name[j] == '.' ==> '.' in name[j + 1..] by {
        forall j | 0 < j < |name| - 1 && name[j] == '.' ensures '.' in name[j + 1..] {
          assert j <= i;
          assert name[j + 1..][i - j - 1] == name[i];
        }
      }
      ""
  }

  // ---------------------------------------------------------------- lemmas

  /** The components of "" and of a single piece. */
  lemma ComponentsOfPiece(s: string)
    requires '/' !in s
    ensures Components(s) == if s == "" || s == "." then [] else [s]
  {
  }

  /** Leading separators add no component. */
  lemma ComponentsAfterSeparator(t: string)
    ensures Components("/" + t) == Components(t)
  {
    ComponentsConcat("", t);
    assert "" + "/" + t == "/" + t;
    ComponentsOfPiece("");
  }

  /** Selecting components from pieces that all qualify keeps every one. */
  lemma {:induction false} KeptAll(pieces: seq<string>)
    requires forall i :: 0 <= i < |pieces| ==> pieces[i] != "" && pieces[i] != "."
    ensures Kept(pieces) == pieces
  {
    if pieces != [] {
      KeptAll(pieces[1..]);
      assert pieces == [pieces[0]] + pieces[1..];
    }
  }

  /** The components of joined components are those components. */
  lemma ComponentsOfJoined(parts: seq<string>)
    requires forall i :: 0 <= i < |parts| ==> parts[i] != "" && parts[i] != "." && '/' !in parts[i]
    ensures Components(JoinWith(parts)) == parts
  {
    if parts != [] {
      SplitJoin(parts);
      KeptAll(parts);
    }
  }

  /** Parsing the string of a parsed path gives that path back. */
  lemma ParseFormat(p: PurePath)
    requires Normal(p)
    ensures Parse(Format(p)) == p
  {
    if p.parts == [] {
      ParseRootAlone(p.root);
    } else {
      var j := JoinWith(p.parts);
      ComponentsOfJoined(p.parts);
      JoinStartsWithPart(p.parts);
      RootBeforeComponent(p.root, j);
    }
  }

  /** A path with no components prints as its root, or ".", and parses back. */
  lemma ParseRootAlone(root: string)
    requires root == "" || root == "/" || root == "//"
    ensures Parse(Format(PurePath(root, []))) == PurePath(root, [])
  {
    if root == "" {
      assert Format(PurePath(root, [])) == ".";
      ComponentsOfPiece(".");
    } else if root == "/" {
      assert Format(PurePath(root, [])) == "/" + "";
      ComponentsAfterSeparator("");
      ComponentsOfPiece("");
    } else {
      assert Format(PurePath(root, [])) == "/" + ("/" + "");
      ComponentsAfterSeparator("/" + "");
      ComponentsAfterSeparator("");
      ComponentsOfPiece("");
    }
  }

  /** A root written before a string that starts with a component is read back as that root, adding no component. */
  lemma RootBeforeComponent(root: string, j: string)
    requires root == "" || root == "/" || root == "//"
    requires j != "" && j[0] != '/'
    ensures Root(root + j) == root && Components(root + j) == Components(j)
  {
    if root == "/" {
      assert root + j == "/" + j;
      ComponentsAfterSeparator(j);
    } else if root == "//" {
      assert root + j == "/" + ("/" + j);
      ComponentsAfterSeparator("/" + j);
      ComponentsAfterSeparator(j);
    } else {
      assert root + j == j;
    }
  }

  /** A join of components starts with the first component's first character, which is no separator. */
  lemma JoinStartsWithPart(parts: seq<string>)
    requires parts != [] && parts[0] != "" && '/' !in parts[0]
    ensures JoinWith(parts) != "" && JoinWith(parts)[0] == parts[0][0] && JoinWith(parts)[0] != '/'
  {
    assert parts[0][0] in parts[0];
  }

  /** `Path(a) / b`: an absolute `b` keeps only its own components; otherwise `b`'s follow `a`'s. */
  lemma JoinComponents(a: string, b: string)
    ensures Components(PosixJoin(a, b)) ==
      if b != "" && b[0] == '/' then Components(b) else Components(a) + Components(b)
  {
    if b != "" && b[0] == '/' {
    } else if a == "" {
      ComponentsOfPiece("");
      assert a + b == b;
    } else if a[|a| - 1] == '/' {
      TrailingSeparatorJoin(a[..|a| - 1], b);
      assert a[..|a| - 1] + "/" == a;
    } else {
      ComponentsConcat(a, b);
    }
  }

  /** A directory written with a trailing separator contributes the same components. */
  lemma TrailingSeparatorJoin(a: string, b: string)
    ensures Components(a + "/" + b) == Components(a + "/") + Components(b)
  {
    ComponentsConcat(a, b);
    TrailingSeparator(a);
  }

  /** A trailing separator adds no component. */
  lemma TrailingSeparator(a: string)
    ensures Components(a + "/") == Components(a)
  {
    ComponentsConcat(a, "");
    assert a + "/" + "" == a + "/";
    ComponentsOfPiece("");
    assert Components(a) + [] == Components(a);
  }

  /** A non-empty relative path whose pieces are all proper components. */
  predicate Plain(s: string)
  {
    s != "" && s[0] != '/' && forall i :: 0 <= i < |Split(s)| ==> Split(s)[i] != "" && Split(s)[i] != "."
  }

  /** A single proper component is a plain path. */
  lemma PieceIsPlain(s: string)
    requires s != "" && s != "." && '/' !in s
    ensures Plain(s)
  {
    assert s[0] in s;
  }

  /** Joining a plain path and a name without a separator needs no normalising: the string join is the path. */
  lemma PlainJoin(dir: string, name: string)
    requires Plain(dir)
    requires name != "" && name != "." && '/' !in name
    ensures Format(Parse(PosixJoin(dir, name))) == dir + "/" + name
  {
    assert name[0] in name;
    JoinComponents(dir, name);
    KeptAll(Split(dir));
    ComponentsOfPiece(name);
    var parts := Split(dir) + [name];
    assert Parse(PosixJoin(dir, name)) == PurePath("", parts);
    JoinWithConcat(Split(dir), [name]);
  }
  /** A relative name joined on keeps the directory's root. */
  lemma RootOfJoin(dir: string, name: string)
    requires name != "" && name[0] != '/'
    ensures Root(PosixJoin(dir, name)) == Root(dir)
  {
    var s := PosixJoin(dir, name);
    assert s[..|dir|] == dir;
    if |dir| < |s| {
      assert s[|dir|] == '/' || s[|dir|] == name[0];
    }
    if |dir| > 0 && dir[|dir| - 1] != '/' {
      assert s[|dir|] == '/';
    } else {
      assert |dir| < |s| && s[|dir|] == name[0];
    }
  }

  /** Joining a single component onto a directory appends it to the directory's parsed form. */
  lemma JoinName(dir: string, name: string)
    requires name != "" && name != "." && '/' !in name
    ensures Parse(PosixJoin(dir, name)) == PurePath(Root(dir), Components(dir) + [name])
  {
    assert name[0] in name;
    RootOfJoin(dir, name);
    JoinComponents(dir, name);
    ComponentsOfPiece(name);
  }
}
