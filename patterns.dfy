/** The six GitHub URL shapes `exp1`..`exp6` and `checkUrl`.

    Each expression has the form `^(?:https?:\/\/)?<host>\/<segments><tail>$`
    with the `i` flag. They are written out here as predicates:
    - the `i` flag (without the `u` flag) folds ASCII letters only, because a
      non-ASCII character never canonicalises to an ASCII one;
    - `.` is any character except a line terminator;
    - each lazy `.+?\/` is a non-empty run of such characters up to some `/`
      (it may itself contain `/`); laziness changes which match is found, not
      whether one exists, so a segment is an existential over its end;
    - `$` is the end of input, so every tail covers the rest of the string. */
module Patterns {
  import opened Strings

  /** The characters JavaScript's `.` refuses to match. */
  predicate IsLineTerminator(c: char) {
    c == '\n' || c == '\r' || c == '\U{2028}' || c == '\U{2029}'
  }

  /** `.*$`: the rest of the input holds no line terminator. */
  predicate Dots(s: string) {
    forall i :: 0 <= i < |s| ==> !IsLineTerminator(s[i])
  }

  /** A literal matched under the `i` flag; `lit` is written in lower case. */
  predicate StartsWithCI(s: string, lit: string)
    decreases |lit|
  {
    |lit| <= |s| && (|lit| == 0 || (LowerChar(s[0]) == lit[0] && StartsWithCI(s[1..], lit[1..])))
  }

  /** A case-insensitive prefix fixes each of the first `|lit|` characters up to case. */
  lemma {:induction false} StartsWithCIAt(s: string, lit: string, i: nat)
    requires i < |lit|
    ensures StartsWithCI(s, lit) ==> i < |s| && LowerChar(s[i]) == lit[i]
    decreases i
  {
    if i > 0 && StartsWithCI(s, lit) {
      StartsWithCIAt(s[1..], lit[1..], i - 1);
    }
  }

  /** `<word>.*$` */
  predicate WordThenDots(r: string, word: string) {
    StartsWithCI(r, word) && Dots(r[|word|..])
  }

  /** The part of an expression after its last lazy segment. */
  datatype Tail =
    | ReleasesOrArchive   // (?:releases|archive)\/.*$
    | BlobOrRaw           // (?:blob|raw)\/.*$
    | InfoOrGit           // (?:info|git-).*$
    | Tags                // tags.*$
    | Rest                // .+$

  predicate TailMatches(tail: Tail, r: string) {
    match tail
    case ReleasesOrArchive => WordThenDots(r, "releases/") || WordThenDots(r, "archive/")
    case BlobOrRaw => WordThenDots(r, "blob/") || WordThenDots(r, "raw/")
    case InfoOrGit => WordThenDots(r, "info") || WordThenDots(r, "git-")
    case Tags => WordThenDots(r, "tags")
    case Rest => |r| > 0 && Dots(r)
  }

  /** `n` lazy segments `.+?\/` and then `tail`. */
  predicate Segments(r: string, n: nat, tail: Tail)
    decreases n
  {
    if n == 0 then TailMatches(tail, r)
    else exists i | 0 < i < |r| :: r[i] == '/' && Dots(r[..i]) && Segments(r[i + 1..], n - 1, tail)
  }

  datatype Pattern =
    | Exp1   // github.com/<owner>/<repo>/(releases|archive)/...
    | Exp2   // github.com/<owner>/<repo>/(blob|raw)/...
    | Exp3   // github.com/<owner>/<repo>/(info|git-)...
    | Exp4   // raw.(githubusercontent|github).com/<a>/<b>/<c>/...
    | Exp5   // gist.(githubusercontent|github).com/<a>/<b>/...
    | Exp6   // github.com/<owner>/<repo>/tags...

  /** The fixed parts of an expression after its scheme group: the host
      alternatives (each written with its trailing `/`), how many lazy
      segments follow, and the tail. */
  datatype Shape = Shape(hosts: seq<string>, segments: nat, tail: Tail)

  function ShapeOf(p: Pattern): (sh: Shape)
    ensures forall h :: h in sh.hosts ==> |h| > 0 && (h[0] == 'g' || h[0] == 'r')
  {
    match p
    case Exp1 => Shape(["github.com/"], 2, ReleasesOrArchive)
    case Exp2 => Shape(["github.com/"], 2, BlobOrRaw)
    case Exp3 => Shape(["github.com/"], 2, InfoOrGit)
    case Exp4 => Shape(["raw.githubusercontent.com/", "raw.github.com/"], 3, Rest)
    case Exp5 => Shape(["gist.githubusercontent.com/", "gist.github.com/"], 2, Rest)
    case Exp6 => Shape(["github.com/"], 2, Tags)
  }

  /** One of the `hosts`, then `n` segments, then `tail`. */
  predicate HostsThen(t: string, hosts: seq<string>, n: nat, tail: Tail)
    decreases |hosts|
  {
    && |hosts| > 0
    && (|| (StartsWithCI(t, hosts[0]) && Segments(t[|hosts[0]|..], n, tail))
        || HostsThen(t, hosts[1..], n, tail))
  }

  /** What an expression demands after its optional scheme group. */
  predicate AfterScheme(p: Pattern, t: string) {
    HostsThen(t, ShapeOf(p).hosts, ShapeOf(p).segments, ShapeOf(p).tail)
  }

  /** `s.search(exp) === 0`: the optional group `(?:https?:\/\/)?` is skipped,
      or matches `http://`, or matches `https://`, in any letter case. */
  predicate Matches(p: Pattern, s: string) {
    || AfterScheme(p, s)
    || (StartsWithCI(s, "http://") && AfterScheme(p, s[7..]))
    || (StartsWithCI(s, "https://") && AfterScheme(p, s[8..]))
  }

  /** The order in which `checkUrl` tries the expressions. */
  const CheckOrder: seq<Pattern> := [Exp1, Exp2, Exp3, Exp4, Exp5, Exp6]

  /** Some expression of `ps` matches `u`. */
  predicate AnyMatches(ps: seq<Pattern>, u: string) {
    exists k | 0 <= k < |ps| :: Matches(ps[k], u)
  }

  /** The classifier's meaning: `u` has one of the six GitHub shapes. */
  ghost predicate IsGitHubUrl(u: string) {
    exists p: Pattern :: Matches(p, u)
  }

  /** `checkUrl`: try each expression in turn and stop at the first match. */
  method CheckUrl(u: string) returns (found: bool)
    ensures found == IsGitHubUrl(u)
  {
    for k := 0 to |CheckOrder|
      invariant forall j :: 0 <= j < k ==> !Matches(CheckOrder[j], u)
    {
      if Matches(CheckOrder[k], u) {
        return true;
      }
    }
    NoneInOrder(u);
    return false;
  }

  /** Rejected by every expression of `CheckOrder` means rejected by all six. */
  lemma NoneInOrder(u: string)
    requires forall j :: 0 <= j < |CheckOrder| ==> !Matches(CheckOrder[j], u)
    ensures !IsGitHubUrl(u)
  {
    forall p: Pattern
      ensures !Matches(p, u)
    {
      assert CheckOrder[PatternIndex(p)] == p;
    }
  }

  /** The position of each expression in `CheckOrder`. */
  function PatternIndex(p: Pattern): (k: nat)
    ensures k < |CheckOrder| && CheckOrder[k] == p
  {
    match p
    case Exp1 => 0
    case Exp2 => 1
    case Exp3 => 2
    case Exp4 => 3
    case Exp5 => 4
    case Exp6 => 5
  }

  /** The verdict does not depend on the order the expressions are tried in:
      any list that holds all six gives the same answer as `checkUrl`. */
  lemma OrderIrrelevant(ps: seq<Pattern>, u: string)
    requires forall p: Pattern :: p in ps
    ensures AnyMatches(ps, u) == IsGitHubUrl(u)
  {
    if AnyMatches(ps, u) {
      var k :| 0 <= k < |ps| && Matches(ps[k], u);
      var p := ps[k];
      assert Matches(p, u);
    }
    if IsGitHubUrl(u) {
      var p: Pattern :| Matches(p, u);
      assert p in ps;
      var k :| 0 <= k < |ps| && ps[k] == p;
      assert Matches(ps[k], u);
    }
  }

  // ---------------------------------------------------------------------
  // The two scheme manipulations, both written `/^https?:\/\//` (no i flag).

  /** `if (s.search(/^https?:\/\//) !== 0) s = 'https://' + s` */
  function NormalizeScheme(s: string): (r: string)
    ensures StartsWith(r, "http://") || StartsWith(r, "https://")
    ensures StartsWith(s, "http://") || StartsWith(s, "https://") ==> r == s
    ensures !(StartsWith(s, "http://") || StartsWith(s, "https://")) ==> r == "https://" + s
  {
    if StartsWith(s, "http://") || StartsWith(s, "https://") then s
    else StartsWithConcat("https://", s); "https://" + s
  }

  /** Normalising twice is normalising once. */
  lemma NormalizeIdempotent(s: string)
    ensures NormalizeScheme(NormalizeScheme(s)) == NormalizeScheme(s)
  {
  }

  /** `s.replace(/^https?:\/\//, '')`: the greedy `s?` tries `https://` first. */
  function StripScheme(s: string): (r: string)
    ensures StartsWith(s, "https://") ==> s == "https://" + r
    ensures !StartsWith(s, "https://") && StartsWith(s, "http://") ==> s == "http://" + r
    ensures !StartsWith(s, "https://") && !StartsWith(s, "http://") ==> r == s
  {
    if StartsWith(s, "https://") then
      StartsWithSlice(s, "https://");
      assert s == s[..8] + s[8..];
      s[8..]
    else if StartsWith(s, "http://") then
      StartsWithSlice(s, "http://");
      assert s == s[..7] + s[7..];
      s[7..]
    else s
  }

  /** Each host alternative fixes the first character of the string, up to case. */
  lemma {:induction false} HostsFirst(t: string, hosts: seq<string>, n: nat, tail: Tail)
    requires forall h :: h in hosts ==> |h| > 0 && (h[0] == 'g' || h[0] == 'r')
    ensures HostsThen(t, hosts, n, tail) ==> |t| > 0 && (LowerChar(t[0]) == 'g' || LowerChar(t[0]) == 'r')
    decreases |hosts|
  {
    if |hosts| > 0 {
      StartsWithCIAt(t, hosts[0], 0);
      HostsFirst(t, hosts[1..], n, tail);
    }
  }

  /** Every body begins with the host's first letter, `g` or `r`, in some case. */
  lemma BodyStartsWithHost(p: Pattern, t: string)
    ensures AfterScheme(p, t) ==> |t| > 0 && (LowerChar(t[0]) == 'g' || LowerChar(t[0]) == 'r')
  {
    HostsFirst(t, ShapeOf(p).hosts, ShapeOf(p).segments, ShapeOf(p).tail);
  }

  /** An exact lower-case prefix is also a case-insensitive one. */
  lemma {:induction false} ExactIsCI(s: string, lit: string)
    requires forall k :: 0 <= k < |lit| ==> LowerChar(lit[k]) == lit[k]
    ensures StartsWith(s, lit) ==> StartsWithCI(s, lit)
    decreases |lit|
  {
    if StartsWith(s, lit) && |lit| > 0 {
      ExactIsCI(s[1..], lit[1..]);
    }
  }

  /** Behind an exact `https://` a match can only come through the scheme group. */
  lemma StripHttps(p: Pattern, s: string)
    requires Matches(p, s) && StartsWith(s, "https://")
    ensures AfterScheme(p, s[8..])
  {
    BodyStartsWithHost(p, s);
    SchemeLetters(s);
  }

  /** Behind an exact `http://` a match can only come through the scheme group. */
  lemma StripHttp(p: Pattern, s: string)
    requires Matches(p, s) && StartsWith(s, "http://")
    ensures AfterScheme(p, s[7..])
  {
    BodyStartsWithHost(p, s);
    SchemeLetters(s);
  }

  /** The two schemes start with `h` and differ in their fifth character, so
      an exact one excludes the other in any letter case. */
  lemma SchemeLetters(s: string)
    ensures StartsWith(s, "https://") ==> s[0] == 'h' && !StartsWithCI(s, "http://")
    ensures StartsWith(s, "http://") ==> s[0] == 'h' && !StartsWithCI(s, "https://")
  {
    StartsWithCIAt(s, "http://", 4);
    StartsWithCIAt(s, "https://", 4);
    StartsWithAt(s, "https://", 0);
    StartsWithAt(s, "https://", 4);
    StartsWithAt(s, "http://", 0);
    StartsWithAt(s, "http://", 4);
  }

  /** A string that begins with a lower-case scheme matches an expression only
      through the scheme group, so removing the scheme leaves a body. */
  lemma StripLeavesBody(p: Pattern, s: string)
    requires Matches(p, s)
    ensures StartsWith(s, "http://") || StartsWith(s, "https://") ==> AfterScheme(p, StripScheme(s))
  {
    if StartsWith(s, "https://") {
      StripHttps(p, s);
    } else if StartsWith(s, "http://") {
      StripHttp(p, s);
    }
  }

  /** A body gets `https://` in front from normalisation and is then still
      recognised by the same expression. */
  lemma NormalizeBody(p: Pattern, t: string)
    requires AfterScheme(p, t)
    ensures NormalizeScheme(t) == "https://" + t
    ensures Matches(p, NormalizeScheme(t))
  {
    BodyStartsWithHost(p, t);
    StartsWithAt(t, "http://", 0);
    StartsWithAt(t, "https://", 0);
    HttpsPrefix(t);
    MatchesWithHttps(p, "https://" + t);
  }

  /** `https://` in front of `t` is recognised by the scheme group. */
  lemma HttpsPrefix(t: string)
    ensures StartsWithCI("https://" + t, "https://") && ("https://" + t)[8..] == t
  {
    StartsWithConcat("https://", t);
    ExactIsCI("https://" + t, "https://");
  }

  lemma MatchesWithHttps(p: Pattern, s: string)
    requires StartsWithCI(s, "https://") && AfterScheme(p, s[8..])
    ensures Matches(p, s)
  {
  }

  /** Stripping the scheme of a GitHub-shaped URL keeps it GitHub-shaped,
      with the same expression. */
  lemma StripKeepsMatch(p: Pattern, s: string)
    requires Matches(p, s)
    ensures Matches(p, StripScheme(s))
  {
    StripLeavesBody(p, s);
  }

  // ---------------------------------------------------------------------
  // Each expression accepts the paths it was written for.

  /** A path segment `.+?`: non-empty, no line terminator. */
  predicate IsSegment(x: string) {
    |x| > 0 && Dots(x)
  }

  /** A literal written in lower case. */
  predicate IsLowerLit(lit: string) {
    forall k :: 0 <= k < |lit| ==> LowerChar(lit[k]) == lit[k]
  }

  /** A segment followed by `/` is one more lazy segment. */
  lemma SegmentsCons(x: string, rest: string, n: nat, tail: Tail)
    requires IsSegment(x) && Segments(rest, n, tail)
    ensures Segments(x + "/" + rest, n + 1, tail)
  {
    var r := x + "/" + rest;
    assert r[|x|] == '/' && r[..|x|] == x && r[|x| + 1..] == rest;
  }

  /** A lower-case literal heads every string that starts with it, in any case. */
  lemma LowerPrefix(lit: string, rest: string)
    requires IsLowerLit(lit)
    ensures StartsWithCI(lit + rest, lit) && (lit + rest)[|lit|..] == rest
  {
    StartsWithConcat(lit, rest);
    ExactIsCI(lit + rest, lit);
  }

  /** A tail word followed by dots. */
  lemma WordTail(w: string, rest: string)
    requires IsLowerLit(w) && Dots(rest)
    ensures WordThenDots(w + rest, w)
  {
    LowerPrefix(w, rest);
  }

  /** The first host alternative, then `n` segments and a tail. */
  lemma FirstHost(hosts: seq<string>, body: string, n: nat, tail: Tail)
    requires |hosts| > 0 && IsLowerLit(hosts[0]) && Segments(body, n, tail)
    ensures HostsThen(hosts[0] + body, hosts, n, tail)
  {
    LowerPrefix(hosts[0], body);
  }

  /** `<host><a>/<b>/<r>` with `r` matching the tail. */
  lemma TwoSegments(hosts: seq<string>, a: string, b: string, r: string, tail: Tail)
    requires |hosts| > 0 && IsLowerLit(hosts[0])
    requires IsSegment(a) && IsSegment(b) && TailMatches(tail, r)
    ensures HostsThen(hosts[0] + (a + "/" + (b + "/" + r)), hosts, 2, tail)
  {
    SegmentsCons(b, r, 0, tail);
    SegmentsCons(a, b + "/" + r, 1, tail);
    FirstHost(hosts, a + "/" + (b + "/" + r), 2, tail);
  }

  /** `exp1` accepts a release or archive path, such as
      `github.com/hunshcn/project/releases/download/v1/a.zip` or
      `github.com/a/b/archive/master.zip`. */
  lemma Exp1Accepts(owner: string, repo: string, kind: string, rest: string)
    requires IsSegment(owner) && IsSegment(repo) && Dots(rest)
    requires kind == "releases/" || kind == "archive/"
    ensures Matches(Exp1, "github.com/" + (owner + "/" + (repo + "/" + (kind + rest))))
  {
    WordTail(kind, rest);
    assert IsLowerLit("github.com/");
    TwoSegments(["github.com/"], owner, repo, kind + rest, ReleasesOrArchive);
  }

  /** `exp2` accepts a `blob` or `raw` link, such as `github.com/a/b/blob/main/f.go`. */
  lemma Exp2Accepts(owner: string, repo: string, kind: string, rest: string)
    requires IsSegment(owner) && IsSegment(repo) && Dots(rest)
    requires kind == "blob/" || kind == "raw/"
    ensures Matches(Exp2, "github.com/" + (owner + "/" + (repo + "/" + (kind + rest))))
  {
    WordTail(kind, rest);
    assert IsLowerLit("github.com/");
    TwoSegments(["github.com/"], owner, repo, kind + rest, BlobOrRaw);
  }

  /** `exp3` accepts a git smart-HTTP path, such as `github.com/a/b/info/refs`. */
  lemma Exp3Accepts(owner: string, repo: string, kind: string, rest: string)
    requires IsSegment(owner) && IsSegment(repo) && Dots(rest)
    requires kind == "info" || kind == "git-"
    ensures Matches(Exp3, "github.com/" + (owner + "/" + (repo + "/" + (kind + rest))))
  {
    WordTail(kind, rest);
    assert IsLowerLit("github.com/");
    TwoSegments(["github.com/"], owner, repo, kind + rest, InfoOrGit);
  }

  /** `exp6` accepts a tags path, such as `github.com/a/b/tags`. */
  lemma Exp6Accepts(owner: string, repo: string, rest: string)
    requires IsSegment(owner) && IsSegment(repo) && Dots(rest)
    ensures Matches(Exp6, "github.com/" + (owner + "/" + (repo + "/" + ("tags" + rest))))
  {
    WordTail("tags", rest);
    assert IsLowerLit("github.com/");
    TwoSegments(["github.com/"], owner, repo, "tags" + rest, Tags);
  }

  /** `exp5` accepts a raw gist file, such as
      `gist.githubusercontent.com/u/abc/raw/f.txt`. */
  lemma Exp5Accepts(user: string, id: string, rest: string)
    requires IsSegment(user) && IsSegment(id) && IsSegment(rest)
    ensures Matches(Exp5, "gist.githubusercontent.com/" + (user + "/" + (id + "/" + rest)))
  {
    var hosts := ["gist.githubusercontent.com/", "gist.github.com/"];
    assert IsLowerLit(hosts[0]);
    TwoSegments(hosts, user, id, rest, Rest);
  }

  /** `exp4` accepts a raw file, such as
      `raw.githubusercontent.com/a/b/main/f.go`. */
  lemma Exp4Accepts(owner: string, repo: string, branch: string, rest: string)
    requires IsSegment(owner) && IsSegment(repo) && IsSegment(branch) && IsSegment(rest)
    ensures Matches(Exp4, "raw.githubusercontent.com/" + (owner + "/" + (repo + "/" + (branch + "/" + rest))))
  {
    var hosts := ["raw.githubusercontent.com/", "raw.github.com/"];
    assert IsLowerLit(hosts[0]);
    SegmentsCons(branch, rest, 0, Rest);
    SegmentsCons(repo, branch + "/" + rest, 1, Rest);
    SegmentsCons(owner, repo + "/" + (branch + "/" + rest), 2, Rest);
    FirstHost(hosts, owner + "/" + (repo + "/" + (branch + "/" + rest)), 3, Rest);
  }
}
