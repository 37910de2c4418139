/** The crawler block list: `ADD`, which turns the `UA` environment variable
    into tokens, and the test that decides whether a request's User-Agent is
    one to turn away. */
module UserAgents {
  import opened Strings
  import opened Http

  /** The characters of the class `[\t |"'\r\n]`. */
  predicate IsSep(c: char) {
    c == '\t' || c == ' ' || c == '|' || c == '"' || c == '\'' || c == '\r' || c == '\n'
  }

  predicate IsComma(c: char) {
    c == ','
  }

  /** `s` without its leading characters that satisfy `p`. */
  function DropRun(s: string, p: char -> bool): (r: string)
    ensures |r| <= |s|
    ensures r == s[|s| - |r|..]
    ensures r == [] || !p(r[0])
    ensures forall i :: 0 <= i < |s| - |r| ==> p(s[i])
  {
    if |s| > 0 && p(s[0]) then
      var r := DropRun(s[1..], p);
      assert s[1..][|s| - 1 - |r|..] == s[|s| - |r|..];
      assert forall i :: 1 <= i < |s| - |r| ==> s[i] == s[1..][i - 1];
      r
    else s
  }

  /** `s.replace(/[...]+/g, ',')`: every maximal run of characters
      satisfying `p` becomes one comma. */
  function ReplaceRuns(s: string, p: char -> bool): string
    decreases |s|
  {
    if |s| == 0 then []
    else if p(s[0]) then [','] + ReplaceRuns(DropRun(s[1..], p), p)
    else [s[0]] + ReplaceRuns(s[1..], p)
  }

  /** Drop one leading and then one trailing comma. */
  function TrimCommas(s: string): string {
    var t := if |s| > 0 && s[0] == ',' then s[1..] else s;
    if |t| > 0 && t[|t| - 1] == ',' then t[..|t| - 1] else t
  }

  /** `s.split(',')`: always at least one piece; an empty string gives `[""]`. */
  function Split(s: string): (r: seq<string>)
    ensures |r| >= 1
  {
    if |s| == 0 then [""]
    else if s[0] == ',' then [""] + Split(s[1..])
    else
      var rest := Split(s[1..]);
      [[s[0]] + rest[0]] + rest[1..]
  }

  /** `ADD(envadd)` */
  function Add(envadd: string): seq<string> {
    Split(TrimCommas(ReplaceRuns(ReplaceRuns(envadd, IsSep), IsComma)))
  }

  // ---------------------------------------------------------------------
  // What the tokens are.

  /** The characters of `s` that are neither separators nor commas, in order. */
  function Keep(s: string): (r: string)
    ensures |r| <= |s|
  {
    if |s| == 0 then []
    else if IsSep(s[0]) || s[0] == ',' then Keep(s[1..])
    else [s[0]] + Keep(s[1..])
  }

  /** The tokens written one after another. */
  function Flat(ts: seq<string>): string {
    if |ts| == 0 then [] else ts[0] + Flat(ts[1..])
  }

  predicate NoSeps(s: string) {
    forall i :: 0 <= i < |s| ==> !IsSep(s[i])
  }

  predicate NoDoubleComma(s: string) {
    forall i :: 0 <= i < |s| - 1 ==> !(s[i] == ',' && s[i + 1] == ',')
  }

  lemma {:induction false} KeepAppend(a: string, b: string)
    ensures Keep(a + b) == Keep(a) + Keep(b)
    decreases |a|
  {
    if |a| > 0 {
      KeepAppend(a[1..], b);
      assert (a + b)[1..] == a[1..] + b;
    } else {
      assert a + b == b;
    }
  }

  /** A run that only holds separators and commas keeps nothing. */
  lemma {:induction false} KeepDropRun(s: string, p: char -> bool)
    requires forall c :: p(c) ==> IsSep(c) || c == ','
    ensures Keep(DropRun(s, p)) == Keep(s)
    decreases |s|
  {
    if |s| > 0 && p(s[0]) {
      KeepDropRun(s[1..], p);
    }
  }

  /** Turning runs of separators or commas into commas keeps every other
      character, in order. */
  lemma {:induction false} KeepReplaceRuns(s: string, p: char -> bool)
    requires forall c :: p(c) ==> IsSep(c) || c == ','
    ensures Keep(ReplaceRuns(s, p)) == Keep(s)
    decreases |s|
  {
    if |s| > 0 {
      if p(s[0]) {
        KeepDropRun(s[1..], p);
        KeepReplaceRuns(DropRun(s[1..], p), p);
        KeepAppend([','], ReplaceRuns(DropRun(s[1..], p), p));
      } else {
        KeepReplaceRuns(s[1..], p);
        KeepAppend([s[0]], ReplaceRuns(s[1..], p));
      }
    }
  }

  /** The first pass leaves no separator. */
  lemma {:induction false} ReplaceSepsNoSeps(s: string)
    ensures NoSeps(ReplaceRuns(s, IsSep))
    decreases |s|
  {
    if |s| > 0 {
      if IsSep(s[0]) {
        ReplaceSepsNoSeps(DropRun(s[1..], IsSep));
      } else {
        ReplaceSepsNoSeps(s[1..]);
      }
    }
  }

  /** A character `p` does not hold for leads the result unchanged. */
  lemma ReplaceRunsHead(s: string, p: char -> bool)
    requires |s| > 0 && !p(s[0])
    ensures |ReplaceRuns(s, p)| > 0 && ReplaceRuns(s, p)[0] == s[0]
  {
  }

  /** The second pass keeps the absence of separators and leaves no two
      commas side by side. */
  lemma {:induction false} CollapseCommas(s: string)
    requires NoSeps(s)
    ensures NoSeps(ReplaceRuns(s, IsComma))
    ensures NoDoubleComma(ReplaceRuns(s, IsComma))
    decreases |s|
  {
    if |s| > 0 {
      var r := ReplaceRuns(s, IsComma);
      if IsComma(s[0]) {
        var d := DropRun(s[1..], IsComma);
        assert NoSeps(d);
        CollapseCommas(d);
        if |d| > 0 {
          ReplaceRunsHead(d, IsComma);
        }
        assert r == [','] + ReplaceRuns(d, IsComma);
      } else {
        CollapseCommas(s[1..]);
        assert r == [s[0]] + ReplaceRuns(s[1..], IsComma);
      }
    }
  }

  /** Trimming keeps the kept characters and the two properties above, and
      leaves no comma at either end. */
  lemma TrimCommasSpec(s: string)
    requires NoSeps(s) && NoDoubleComma(s)
    ensures var u := TrimCommas(s);
      && Keep(u) == Keep(s) && NoSeps(u) && NoDoubleComma(u)
      && (|u| > 0 ==> u[0] != ',' && u[|u| - 1] != ',')
  {
    var t := if |s| > 0 && s[0] == ',' then s[1..] else s;
    if |s| > 0 && s[0] == ',' {
      KeepAppend([','], s[1..]);
      assert s == [','] + s[1..];
    }
    if |t| > 0 && t[|t| - 1] == ',' {
      KeepAppend(t[..|t| - 1], [',']);
      assert t == t[..|t| - 1] + [','];
    }
  }

  lemma {:induction false} FlatAppendHead(c: char, rest: seq<string>)
    requires |rest| >= 1
    ensures Flat([[c] + rest[0]] + rest[1..]) == [c] + Flat(rest)
  {
    var ts := [[c] + rest[0]] + rest[1..];
    assert ts[1..] == rest[1..];
  }

  /** No piece of a split holds a comma, and the pieces together are the
      string without its commas. */
  lemma {:induction false} SplitPieces(s: string)
    requires NoSeps(s)
    ensures forall k :: 0 <= k < |Split(s)| ==> ',' !in Split(s)[k]
    ensures Flat(Split(s)) == Keep(s)
    decreases |s|
  {
    if |s| > 0 {
      SplitPieces(s[1..]);
      var rest := Split(s[1..]);
      if s[0] == ',' {
        assert Split(s) == [""] + rest;
        assert ([""] + rest)[1..] == rest;
      } else {
        FlatAppendHead(s[0], rest);
        assert Split(s) == [[s[0]] + rest[0]] + rest[1..];
        assert forall k :: 1 <= k < |Split(s)| ==> Split(s)[k] == rest[k];
      }
    }
  }

  /** Every piece after the first of a split of a string with no double
      comma and no trailing comma is non-empty, and so is the first piece when
      the string does not start with a comma. */
  lemma {:induction false} SplitNonEmpty(s: string)
    requires NoDoubleComma(s) && (|s| > 0 ==> s[|s| - 1] != ',')
    ensures forall k :: 1 <= k < |Split(s)| ==> Split(s)[k] != ""
    ensures |s| > 0 && s[0] != ',' ==> Split(s)[0] != ""
    decreases |s|
  {
    if |s| > 0 {
      var rest := Split(s[1..]);
      SplitNonEmpty(s[1..]);
      if s[0] == ',' {
        assert Split(s) == [""] + rest;
        assert |s| > 1 && s[1] != ',';
        assert forall k :: 1 <= k < |Split(s)| ==> Split(s)[k] == rest[k - 1];
      } else {
        assert Split(s) == [[s[0]] + rest[0]] + rest[1..];
        assert forall k :: 1 <= k < |Split(s)| ==> Split(s)[k] == rest[k];
      }
    }
  }

  /** A string of commas alone with no double comma and no comma at an end is empty. */
  lemma OnlyCommasEmpty(u: string)
    requires NoSeps(u) && NoDoubleComma(u) && (|u| > 0 ==> u[0] != ',')
    ensures Keep(u) == [] ==> u == []
  {
    if |u| > 0 {
      assert Keep(u) == [u[0]] + Keep(u[1..]);
    }
  }

  /** What `ADD` returns: tokens without separators or commas which, laid end
      to end, give back exactly the other characters of the input; `[""]`
      when there are none, and otherwise no empty token at all. */
  lemma AddSpec(envadd: string)
    ensures forall k :: 0 <= k < |Add(envadd)| ==>
      ',' !in Add(envadd)[k] && NoSeps(Add(envadd)[k])
    ensures Flat(Add(envadd)) == Keep(envadd)
    ensures Keep(envadd) == [] ==> Add(envadd) == [""]
    ensures Keep(envadd) != [] ==> forall k :: 0 <= k < |Add(envadd)| ==> Add(envadd)[k] != ""
  {
    var t1 := ReplaceRuns(envadd, IsSep);
    KeepReplaceRuns(envadd, IsSep);
    ReplaceSepsNoSeps(envadd);
    var t2 := ReplaceRuns(t1, IsComma);
    KeepReplaceRuns(t1, IsComma);
    CollapseCommas(t1);
    var u := TrimCommas(t2);
    TrimCommasSpec(t2);
    SplitPieces(u);
    SplitNonEmpty(u);
    OnlyCommasEmpty(u);
    TokensHaveNoSeps(u);
    if Keep(envadd) != [] {
      assert u != [];
    }
  }

  lemma TokensHaveNoSeps(u: string)
    requires NoSeps(u)
    ensures forall k :: 0 <= k < |Split(u)| ==> NoSeps(Split(u)[k])
    ensures Flat(Split(u)) == Keep(u)
  {
    SplitPieces(u);
    forall k | 0 <= k < |Split(u)|
      ensures NoSeps(Split(u)[k])
    {
      FlatHasPiece(Split(u), k);
      KeepHasNoSeps(u);
    }
  }

  /** A piece's characters all appear in the concatenation. */
  lemma {:induction false} FlatHasPiece(ts: seq<string>, k: nat)
    requires k < |ts|
    ensures forall c :: c in ts[k] ==> c in Flat(ts)
    decreases k
  {
    if k > 0 {
      FlatHasPiece(ts[1..], k - 1);
    }
  }

  lemma {:induction false} KeepHasNoSeps(s: string)
    ensures NoSeps(Keep(s)) && ',' !in Keep(s)
    decreases |s|
  {
    if |s| > 0 {
      KeepHasNoSeps(s[1..]);
    }
  }

  // ---------------------------------------------------------------------
  // Where the tokens are cut: an independent definition.

  /** A character that ends a token: a separator or a comma. */
  predicate IsDelim(c: char) {
    IsSep(c) || c == ','
  }

  /** The maximal runs of `s` that hold no delimiter, in order. */
  function Words(s: string): (r: seq<string>)
    ensures |s| > 0 && !IsDelim(s[0]) ==> |r| > 0
    decreases |s|
  {
    if |s| == 0 then []
    else if IsDelim(s[0]) then Words(s[1..])
    else if |s| > 1 && !IsDelim(s[1]) then
      var w := Words(s[1..]);
      [[s[0]] + w[0]] + w[1..]
    else [[s[0]]] + Words(s[1..])
  }

  /** Leading delimiters make no word. */
  lemma {:induction false} WordsDropRun(s: string, p: char -> bool)
    requires forall c :: p(c) ==> IsDelim(c)
    ensures Words(DropRun(s, p)) == Words(s)
    decreases |s|
  {
    if |s| > 0 && p(s[0]) {
      WordsDropRun(s[1..], p);
    }
  }

  /** A word character in front of `t` joins the first word of `t` when
      `t` starts with a word character, and is a word of its own otherwise. */
  lemma WordsCons(c: char, t: string)
    requires !IsDelim(c)
    ensures |t| > 0 && !IsDelim(t[0]) ==>
      |Words(t)| > 0 && Words([c] + t) == [[c] + Words(t)[0]] + Words(t)[1..]
    ensures !(|t| > 0 && !IsDelim(t[0])) ==> Words([c] + t) == [[c]] + Words(t)
  {
    assert ([c] + t)[1..] == t;
  }

  /** Turning each run of delimiters into one comma moves no word boundary. */
  lemma {:induction false} WordsReplaceRuns(s: string, p: char -> bool)
    requires forall c :: p(c) ==> IsDelim(c)
    ensures Words(ReplaceRuns(s, p)) == Words(s)
    decreases |s|
  {
    if |s| > 0 {
      if p(s[0]) {
        var d := DropRun(s[1..], p);
        WordsReplaceRuns(d, p);
        WordsDropRun(s[1..], p);
        assert ([','] + ReplaceRuns(d, p))[1..] == ReplaceRuns(d, p);
      } else {
        var x := ReplaceRuns(s[1..], p);
        WordsReplaceRuns(s[1..], p);
        if IsDelim(s[0]) {
          assert ([s[0]] + x)[1..] == x;
        } else {
          if |s| > 1 && !p(s[1]) {
            assert x == [s[1]] + ReplaceRuns(s[2..], p) by {
              assert s[1..][1..] == s[2..];
            }
          } else if |s| > 1 {
            assert x[0] == ',';
          }
          WordsCons(s[0], x);
          WordsCons(s[0], s[1..]);
          assert s == [s[0]] + s[1..];
        }
      }
    }
  }

  /** A trailing delimiter makes no word. */
  lemma {:induction false} WordsSnocDelim(x: string, d: char)
    requires IsDelim(d)
    ensures Words(x + [d]) == Words(x)
    decreases |x|
  {
    if |x| > 0 {
      WordsSnocDelim(x[1..], d);
      assert (x + [d])[1..] == x[1..] + [d];
    } else {
      assert x + [d] == [d];
      assert [d][1..] == [];
    }
  }

  /** Trimming one comma at each end moves no word boundary. */
  lemma WordsTrimCommas(s: string)
    ensures Words(TrimCommas(s)) == Words(s)
  {
    var t := if |s| > 0 && s[0] == ',' then s[1..] else s;
    assert Words(t) == Words(s);
    if |t| > 0 && t[|t| - 1] == ',' {
      WordsSnocDelim(t[..|t| - 1], ',');
      assert t == t[..|t| - 1] + [','];
    }
  }

  /** Splitting at commas a non-empty string with no separator, no double
      comma and no comma at either end gives exactly its words. */
  lemma {:induction false} SplitIsWords(u: string)
    requires |u| > 0 && NoSeps(u) && NoDoubleComma(u)
    requires u[0] != ',' && u[|u| - 1] != ','
    ensures Split(u) == Words(u)
    decreases |u|
  {
    assert !IsDelim(u[0]);
    if |u| == 1 {
      assert Split(u) == [[u[0]] + ""] + [];
      assert Words(u) == [[u[0]]] + Words([]);
      assert Words([]) == [] && [u[0]] + "" == [u[0]];
    } else {
      if u[1] != ',' {
        assert !IsDelim(u[1]);
        SplitIsWords(u[1..]);
        var w := Words(u[1..]);
        assert Words(u) == [[u[0]] + w[0]] + w[1..];
        assert Split(u) == [[u[0]] + Split(u[1..])[0]] + Split(u[1..])[1..];
      } else {
        assert IsDelim(u[1]);
        assert Words(u) == [[u[0]]] + Words(u[1..]);
        var v := u[2..];
        assert u[1..][1..] == v;
        assert |u| > 2 && u[2] != ',';
        assert NoSeps(v) && NoDoubleComma(v) by {
          assert forall i :: 0 <= i < |v| ==> v[i] == u[i + 2];
        }
        SplitIsWords(v);
        assert Split(u[1..]) == [""] + Split(v);
        assert Split(u) == [[u[0]]] + Split(v) by {
          assert [u[0]] + "" == [u[0]];
          assert ([""] + Split(v))[1..] == Split(v);
        }
        assert Words(u[1..]) == Words(v);
      }
    }
  }

  /** `ADD` cuts its input exactly at delimiter runs: its tokens are the words
      of the input, or `[""]` when there is none. */
  lemma AddWords(envadd: string)
    ensures Add(envadd) == (if Words(envadd) == [] then [""] else Words(envadd))
  {
    var t1 := ReplaceRuns(envadd, IsSep);
    ReplaceSepsNoSeps(envadd);
    WordsReplaceRuns(envadd, IsSep);
    var t2 := ReplaceRuns(t1, IsComma);
    CollapseCommas(t1);
    WordsReplaceRuns(t1, IsComma);
    var u := TrimCommas(t2);
    TrimCommasSpec(t2);
    WordsTrimCommas(t2);
    if |u| > 0 {
      SplitIsWords(u);
    }
  }

  /** A run of word characters alone is one word. */
  lemma {:induction false} WordAlone(a: string)
    requires |a| > 0 && forall i :: 0 <= i < |a| ==> !IsDelim(a[i])
    ensures Words(a) == [a]
    decreases |a|
  {
    assert a == [a[0]] + a[1..];
    WordsCons(a[0], a[1..]);
    if |a| > 1 {
      WordAlone(a[1..]);
      assert Words(a) == [[a[0]] + a[1..]] + [];
    } else {
      assert Words(a) == [[a[0]]] + Words([]);
      assert [a[0]] == a;
    }
  }

  /** A run of word characters followed by a delimiter is the first word. */
  lemma {:induction false} WordThenRest(a: string, d: char, b: string)
    requires |a| > 0 && forall i :: 0 <= i < |a| ==> !IsDelim(a[i])
    requires IsDelim(d)
    ensures Words(a + [d] + b) == [a] + Words(b)
    decreases |a|
  {
    var s := a + [d] + b;
    assert s == [a[0]] + s[1..];
    WordsCons(a[0], s[1..]);
    if |a| == 1 {
      assert s[1..] == [d] + b;
      assert ([d] + b)[1..] == b;
      assert a == [a[0]];
    } else {
      WordThenRest(a[1..], d, b);
      assert s[1..] == a[1..] + [d] + b;
      assert a == [a[0]] + a[1..];
    }
  }

  /** Two crawler names with a delimiter between them yield two tokens,
      e.g. `bot spider` gives `bot` and `spider`. */
  lemma AddTwoNames(a: string, d: char, b: string)
    requires |a| > 0 && forall i :: 0 <= i < |a| ==> !IsDelim(a[i])
    requires |b| > 0 && forall i :: 0 <= i < |b| ==> !IsDelim(b[i])
    requires IsDelim(d)
    ensures Add(a + [d] + b) == [a, b]
  {
    WordThenRest(a, d, b);
    WordAlone(b);
    AddWords(a + [d] + b);
  }

  // ---------------------------------------------------------------------
  // The block test of lines 268-270.

  /** The lower-cased User-Agent, or `"null"` when the header is missing or
      empty: never empty itself, and with no upper-case ASCII letter left. */
  function UserAgentOf(headers: HeaderMap): (r: string)
    ensures "user-agent" in headers && headers["user-agent"] != "" ==>
      r == Lower(headers["user-agent"])
    ensures !("user-agent" in headers && headers["user-agent"] != "") ==> r == "null"
    ensures |r| > 0
    ensures forall i :: 0 <= i < |r| ==> LowerChar(r[i]) == r[i]
  {
    if "user-agent" in headers && headers["user-agent"] != "" then Lower(headers["user-agent"]) else "null"
  }

  /** Some entry of the list occurs in the User-Agent (and the list is non-empty). */
  predicate Blocked(list: seq<string>, userAgent: string) {
    (exists i :: 0 <= i < |list| && Contains(userAgent, list[i])) && |list| > 0
  }

  /** A list only grows, so a User-Agent once blocked stays blocked. */
  lemma BlockedGrows(list: seq<string>, more: seq<string>, userAgent: string)
    requires Blocked(list, userAgent)
    ensures Blocked(list + more, userAgent)
  {
    var i :| 0 <= i < |list| && Contains(userAgent, list[i]);
    assert (list + more)[i] == list[i];
  }

  /** An empty token, which `ADD` yields for a value made only of
      separators, blocks every User-Agent. */
  lemma EmptyTokenBlocksAll(list: seq<string>, userAgent: string)
    requires "" in list
    ensures Blocked(list, userAgent)
  {
    var i :| 0 <= i < |list| && list[i] == "";
    assert OccursAt(userAgent, "", 0);
  }

  /** A non-empty `UA` value of separators alone blocks every request. */
  lemma SeparatorsOnlyBlocksAll(list: seq<string>, envUa: string, userAgent: string)
    requires Keep(envUa) == []
    ensures Blocked(list + Add(envUa), userAgent)
  {
    AddSpec(envUa);
    assert (list + Add(envUa))[|list|] == "";
    EmptyTokenBlocksAll(list + Add(envUa), userAgent);
  }
}
