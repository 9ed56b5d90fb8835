/** The screen-scraping of the CAS login exchange: the login ticket (the
    hidden `lt` input of the login form, the "login ticket" of section 3.5
    of the CAS Protocol 2.0) and the service ticket (section 3.1) embedded
    in a JavaScript redirect, plus the `rstrip` applied to the SSO host.

    Each regular expression the source hands to `re.search` is written as
    a sequence of tokens, matched at one position by `MatchTokens`;
    `Search` then tries every position from the left, as `re.search`
    does. Every `\s+`, `\w+` and `[\w\-]+` in these patterns is followed
    by a literal whose first character is outside its class, so the
    longest run is the only one backtracking could settle on; only `.*?`
    needs a real search. Character classes are those of a Python 2 byte
    string: ASCII only. */
module Scrape {
  import opened Base

  datatype CharClass = Space | Word | TicketChar

  /** `\s`, `\w` and `[\w\-]`. */
  predicate InClass(c: char, k: CharClass) {
    match k
    case Space => c == ' ' || '\t' <= c <= '\r'
    case Word => 'a' <= c <= 'z' || 'A' <= c <= 'Z' || '0' <= c <= '9' || c == '_'
    case TicketChar => 'a' <= c <= 'z' || 'A' <= c <= 'Z' || '0' <= c <= '9' || c == '_' || c == '-'
  }

  predicate AllIn(s: string, k: CharClass) {
    forall i :: 0 <= i < |s| ==> InClass(s[i], k)
  }

  /** Length of the longest prefix of `s` inside class `k`. */
  function Span(s: string, k: CharClass): (n: nat)
    ensures n <= |s|
  {
    if s == [] || !InClass(s[0], k) then 0 else 1 + Span(s[1..], k)
  }

  /** The prefix Span measures is inside the class, and the character
      after it is not. */
  lemma {:induction false} SpanIsLongestRun(s: string, k: CharClass)
    ensures AllIn(s[..Span(s, k)], k)
    ensures Span(s, k) < |s| ==> !InClass(s[Span(s, k)], k)
    decreases |s|
  {
    if s != [] && InClass(s[0], k) {
      SpanIsLongestRun(s[1..], k);
      var n := Span(s[1..], k);
      assert s[..n + 1] == [s[0]] + s[1..][..n];
    }
  }

  /** One piece of a pattern. */
  datatype Token =
    | Literal(text: string)   // the characters themselves
    | Blanks                  // `\s+`
    | Capture(k: CharClass)   // `(k+)`, a group the caller reads
    | Lazy                    // `.*?`: non-newline characters, as few as possible

  /** The pattern `ts` matched at the start of `s` (`re.match`): the text
      of its captured groups, concatenated, or None when it does not
      match. */
  function MatchTokens(ts: seq<Token>, s: string): (r: Option<string>)
    decreases |ts|, |s|
  {
    if ts == [] then Some([])
    else match ts[0]
      case Literal(t) =>
        if |t| <= |s| && s[..|t|] == t then MatchTokens(ts[1..], s[|t|..]) else None
      case Blanks =>
        var n := Span(s, Space);
        if n == 0 then None else MatchTokens(ts[1..], s[n..])
      case Capture(k) =>
        var n := Span(s, k);
        if n == 0 then None
        else
          var rest :- MatchTokens(ts[1..], s[n..]);
          Some(s[..n] + rest)
      case Lazy =>
        var here := MatchTokens(ts[1..], s);
        if here.Some? then here
        else if s == [] || s[0] == '\n' then None
        else MatchTokens(ts, s[1..])
  }

  /** `re.search(p, s)`: the match at the leftmost position where `ts`
      matches, or None (see `SearchFindsLeftmost`). */
  function Search(ts: seq<Token>, s: string): (r: Option<string>)
    decreases |s|
  {
    var here := MatchTokens(ts, s);
    if here.Some? then here
    else if s == [] then None
    else Search(ts, s[1..])
  }

  /** Search returns the match at a position where the pattern matches and
      no earlier one does, and None exactly when no position matches. */
  lemma SearchFindsLeftmost(ts: seq<Token>, s: string)
    ensures Search(ts, s).None? <==> forall i :: 0 <= i <= |s| ==> MatchTokens(ts, s[i..]).None?
    ensures Search(ts, s).Some? ==>
      exists i :: 0 <= i <= |s| && Search(ts, s) == MatchTokens(ts, s[i..]) &&
                  forall j :: 0 <= j < i ==> MatchTokens(ts, s[j..]).None?
  {
    SearchNoneWhenNoMatch(ts, s);
    SearchSomeIsLeftmost(ts, s);
  }

  /** The positions of `s[1..]` are those of `s` after the first. */
  lemma DropFirstPositions(s: string)
    requires s != []
    ensures forall i :: 1 <= i <= |s| ==> s[1..][i - 1..] == s[i..]
  {
  }

  lemma {:induction false} SearchNoneWhenNoMatch(ts: seq<Token>, s: string)
    ensures Search(ts, s).None? <==> forall i :: 0 <= i <= |s| ==> MatchTokens(ts, s[i..]).None?
    decreases |s|
  {
    assert s[0..] == s;
    if MatchTokens(ts, s).None? && s != [] {
      SearchNoneWhenNoMatch(ts, s[1..]);
      DropFirstPositions(s);
      if forall i :: 1 <= i <= |s| ==> MatchTokens(ts, s[i..]).None? {
        forall i | 0 <= i <= |s[1..]|
          ensures MatchTokens(ts, s[1..][i..]).None?
        {
          assert s[1..][i..] == s[i + 1..];
        }
      }
    }
  }

  lemma {:induction false} SearchSomeIsLeftmost(ts: seq<Token>, s: string)
    ensures Search(ts, s).Some? ==>
      exists i :: 0 <= i <= |s| && Search(ts, s) == MatchTokens(ts, s[i..]) &&
                  forall j :: 0 <= j < i ==> MatchTokens(ts, s[j..]).None?
    decreases |s|
  {
    assert s[0..] == s;
    if MatchTokens(ts, s).None? && s != [] && Search(ts, s).Some? {
      SearchSomeIsLeftmost(ts, s[1..]);
      var i :| 0 <= i <= |s[1..]| && Search(ts, s[1..]) == MatchTokens(ts, s[1..][i..]) &&
               forall j :: 0 <= j < i ==> MatchTokens(ts, s[1..][j..]).None?;
      DropFirstPositions(s);
      assert Search(ts, s) == MatchTokens(ts, s[i + 1..]);
      forall j | 1 <= j < i + 1
        ensures MatchTokens(ts, s[j..]).None?
      {
        assert MatchTokens(ts, s[1..][j - 1..]).None?;
      }
    }
  }

  /** Positions before `|p|` that cannot start a match are skipped: the
      leftmost match in `p + y` is the leftmost match in `y`. */
  lemma {:induction false} SearchSkipsPrefix(ts: seq<Token>, p: string, y: string)
    requires forall k :: 0 <= k < |p| ==> MatchTokens(ts, (p + y)[k..]).None?
    ensures Search(ts, p + y) == Search(ts, y)
    decreases |p|
  {
    if p != [] {
      assert (p + y)[0..] == p + y;
      assert (p + y)[1..] == p[1..] + y;
      forall k | 0 <= k < |p[1..]|
        ensures MatchTokens(ts, (p[1..] + y)[k..]).None?
      {
        assert (p[1..] + y)[k..] == (p + y)[k + 1..];
      }
      SearchSkipsPrefix(ts, p[1..], y);
    } else {
      assert p + y == y;
    }
  }

  /** `<input\s+type="hidden"\s+name="lt"\s+value="(?P<lt>\w+)"\s+/>` */
  const LoginTicketPattern: seq<Token> := [
    Literal("<input"), Blanks, Literal("type=\"hidden\""), Blanks, Literal("name=\"lt\""), Blanks,
    Literal("value=\""), Capture(Word), Literal("\""), Blanks, Literal("/>")]

  /** `var response_url(\s+)= '.*?ticket=(?P<ticket>[\w\-]+)'`; the
      unnamed blank group is not read. */
  const ServiceTicketPattern: seq<Token> := [
    Literal("var response_url"), Blanks, Literal("= '"), Lazy, Literal("ticket="), Capture(TicketChar), Literal("'")]

  /** The login ticket of a login page, or None ('No login ticket'). */
  function FindLoginTicket(html: string): Option<string> {
    Search(LoginTicketPattern, html)
  }

  /** The service ticket of the credential POST's response, or None
      ('Missing service ticket'). */
  function FindServiceTicket(html: string): Option<string> {
    Search(ServiceTicketPattern, html)
  }

  // ---- What a match captures ----

  /** Every group of `ts` captures class `k`. */
  predicate CapturesIn(ts: seq<Token>, k: CharClass) {
    forall j :: 0 <= j < |ts| ==> ts[j].Capture? ==> ts[j].k == k
  }

  predicate HasCapture(ts: seq<Token>) {
    exists j :: 0 <= j < |ts| && ts[j].Capture?
  }

  /** A match captures only characters of the groups' class, and at least
      one when the pattern has a group. */
  lemma {:induction false} MatchCaptures(ts: seq<Token>, s: string, k: CharClass)
    requires CapturesIn(ts, k)
    ensures MatchTokens(ts, s).Some? ==> AllIn(MatchTokens(ts, s).value, k)
    ensures MatchTokens(ts, s).Some? && HasCapture(ts) ==> |MatchTokens(ts, s).value| > 0
    decreases |ts|, |s|
  {
    if ts != [] {
      var tail := ts[1..];
      assert CapturesIn(tail, k) by {
        forall j | 0 <= j < |tail| ensures tail[j] == ts[j + 1] { }
      }
      assert HasCapture(ts) && !ts[0].Capture? ==> HasCapture(tail) by {
        if HasCapture(ts) && !ts[0].Capture? {
          var j :| 0 <= j < |ts| && ts[j].Capture?;
          assert tail[j - 1] == ts[j];
        }
      }
      match ts[0]
      case Literal(t) =>
        if |t| <= |s| && s[..|t|] == t {
          MatchCaptures(tail, s[|t|..], k);
        }
      case Blanks =>
        var n := Span(s, Space);
        if n != 0 {
          MatchCaptures(tail, s[n..], k);
        }
      case Capture(c) =>
        var n := Span(s, c);
        SpanIsLongestRun(s, c);
        assert c == k;
        if n != 0 {
          MatchCaptures(tail, s[n..], k);
          if MatchTokens(tail, s[n..]).Some? {
            var rest := MatchTokens(tail, s[n..]).value;
            assert MatchTokens(ts, s) == Some(s[..n] + rest);
            assert forall i :: 0 <= i < |s[..n] + rest| ==>
              (s[..n] + rest)[i] == if i < n then s[..n][i] else rest[i - n];
          }
        }
      case Lazy =>
        MatchCaptures(tail, s, k);
        if s != [] {
          MatchCaptures(ts, s[1..], k);
        }
    }
  }

  lemma {:induction false} SearchCaptures(ts: seq<Token>, s: string, k: CharClass)
    requires CapturesIn(ts, k)
    ensures Search(ts, s).Some? ==> AllIn(Search(ts, s).value, k)
    ensures Search(ts, s).Some? && HasCapture(ts) ==> |Search(ts, s).value| > 0
    decreases |s|
  {
    MatchCaptures(ts, s, k);
    if s != [] {
      SearchCaptures(ts, s[1..], k);
    }
  }

  /** The login ticket is a non-empty run of word characters, the service
      ticket a non-empty run of word characters and hyphens. */
  lemma TicketsInClass(html: string)
    ensures FindLoginTicket(html).Some? ==>
      |FindLoginTicket(html).value| > 0 && AllIn(FindLoginTicket(html).value, Word)
    ensures FindServiceTicket(html).Some? ==>
      |FindServiceTicket(html).value| > 0 && AllIn(FindServiceTicket(html).value, TicketChar)
  {
    var p := LoginTicketPattern;
    assert p[7].Capture?;
    assert CapturesIn(p, Word) by {
      forall j | 0 <= j < |p| && p[j].Capture? ensures p[j].k == Word {
        assert j == 7;
      }
    }
    SearchCaptures(p, html, Word);
    var q := ServiceTicketPattern;
    assert q[5].Capture?;
    assert CapturesIn(q, TicketChar) by {
      forall j | 0 <= j < |q| && q[j].Capture? ensures q[j].k == TicketChar {
        assert j == 5;
      }
    }
    SearchCaptures(q, html, TicketChar);
  }

  // ---- Round trips: what the login page and the redirect look like ----

  lemma {:induction false} SpanOfRun(w: string, x: string, k: CharClass)
    requires AllIn(w, k)
    requires x == [] || !InClass(x[0], k)
    ensures Span(w + x, k) == |w|
    decreases |w|
  {
    if w != [] {
      assert (w + x)[1..] == w[1..] + x;
      SpanOfRun(w[1..], x, k);
    } else {
      assert w + x == x;
    }
  }

  /** Matching token `i`, a literal, consumes exactly its text. */
  lemma LiteralStep(ts: seq<Token>, i: nat, x: string)
    requires i < |ts| && ts[i].Literal?
    ensures MatchTokens(ts[i..], ts[i].text + x) == MatchTokens(ts[i + 1..], x)
  {
    var t := ts[i].text;
    assert ts[i..][0] == ts[i] && ts[i..][1..] == ts[i + 1..];
    assert (t + x)[..|t|] == t;
    assert (t + x)[|t|..] == x;
  }

  /** Matching token `i`, `\s+`, consumes a whole run of blanks up to the
      text `t` that follows it, which starts with a non-blank. */
  lemma BlanksStep(ts: seq<Token>, i: nat, w: string, t: string, y: string)
    requires i < |ts| && ts[i] == Blanks
    requires |w| > 0 && AllIn(w, Space)
    requires |t| > 0 && !InClass(t[0], Space)
    ensures MatchTokens(ts[i..], w + (t + y)) == MatchTokens(ts[i + 1..], t + y)
  {
    var x := t + y;
    assert x[0] == t[0];
    assert ts[i..][0] == ts[i] && ts[i..][1..] == ts[i + 1..];
    SpanOfRun(w, x, Space);
    assert (w + x)[|w|..] == x;
  }

  /** Matching token `i`, a group, captures a whole run of its class. */
  lemma CaptureStep(ts: seq<Token>, i: nat, w: string, x: string, v: string)
    requires i < |ts| && ts[i].Capture?
    requires |w| > 0 && AllIn(w, ts[i].k)
    requires x == [] || !InClass(x[0], ts[i].k)
    requires MatchTokens(ts[i + 1..], x) == Some(v)
    ensures MatchTokens(ts[i..], w + x) == Some(w + v)
  {
    assert ts[i..][0] == ts[i] && ts[i..][1..] == ts[i + 1..];
    SpanOfRun(w, x, ts[i].k);
    assert (w + x)[..|w|] == w;
    assert (w + x)[|w|..] == x;
  }

  /** The lazy token `i` walks over a stretch that holds no newline and
      from which the rest of the pattern does not match. */
  lemma {:induction false} LazySkips(ts: seq<Token>, i: nat, url: string, x: string)
    requires i < |ts| && ts[i] == Lazy
    requires forall k :: 0 <= k < |url| ==> url[k] != '\n' && MatchTokens(ts[i + 1..], (url + x)[k..]).None?
    ensures MatchTokens(ts[i..], url + x) == MatchTokens(ts[i..], x)
    decreases |url|
  {
    assert ts[i..][0] == ts[i] && ts[i..][1..] == ts[i + 1..];
    if url != [] {
      assert (url + x)[0..] == url + x;
      assert (url + x)[1..] == url[1..] + x;
      forall k | 0 <= k < |url[1..]|
        ensures url[1..][k] != '\n' && MatchTokens(ts[i + 1..], (url[1..] + x)[k..]).None?
      {
        assert (url[1..] + x)[k..] == (url + x)[k + 1..];
      }
      LazySkips(ts, i, url[1..], x);
    } else {
      assert url + x == x;
    }
  }

  /** The hidden input the login form carries, with arbitrary blank runs
      `w1`..`w4` where the pattern has `\s+`, followed by the rest of the
      page. */
  function LoginInput(w1: string, w2: string, w3: string, w4: string, lt: string, rest: string): string {
    "<input" + (w1 + ("type=\"hidden\"" + (w2 + ("name=\"lt\"" + (w3 + ("value=\"" + (lt + ("\"" + (w4 + ("/>" + rest))))))))))
  }

  lemma LoginTicketOfInput(w1: string, w2: string, w3: string, w4: string, lt: string, rest: string)
    requires |w1| > 0 && |w2| > 0 && |w3| > 0 && |w4| > 0
    requires AllIn(w1, Space) && AllIn(w2, Space) && AllIn(w3, Space) && AllIn(w4, Space)
    requires |lt| > 0 && AllIn(lt, Word)
    ensures MatchTokens(LoginTicketPattern, LoginInput(w1, w2, w3, w4, lt, rest)) == Some(lt)
  {
    var p := LoginTicketPattern;
    var s3 := w2 + ("name=\"lt\"" + (w3 + ("value=\"" + (lt + ("\"" + (w4 + ("/>" + rest)))))));
    var s2 := "type=\"hidden\"" + s3;
    var s1 := w1 + s2;
    assert p[0].Literal? && p[1] == Blanks && p[2].Literal?;
    LoginTicketMiddle(w2, w3, w4, lt, rest);
    LiteralStep(p, 2, s3);
    BlanksStep(p, 1, w1, "type=\"hidden\"", s3);
    LiteralStep(p, 0, s1);
    assert p[0..] == p;
  }

  /** The hidden input from its first blank run after `type="hidden"` on. */
  lemma LoginTicketMiddle(w2: string, w3: string, w4: string, lt: string, rest: string)
    requires |w2| > 0 && |w3| > 0 && |w4| > 0
    requires AllIn(w2, Space) && AllIn(w3, Space) && AllIn(w4, Space)
    requires |lt| > 0 && AllIn(lt, Word)
    ensures MatchTokens(LoginTicketPattern[3..],
      w2 + ("name=\"lt\"" + (w3 + ("value=\"" + (lt + ("\"" + (w4 + ("/>" + rest)))))))) == Some(lt)
  {
    var p := LoginTicketPattern;
    var s6 := "value=\"" + (lt + ("\"" + (w4 + ("/>" + rest))));
    var s5 := w3 + s6;
    var s4 := "name=\"lt\"" + s5;
    assert p[3] == Blanks && p[4].Literal? && p[5] == Blanks;
    LoginTicketTail(w4, lt, rest);
    BlanksStep(p, 5, w3, "value=\"", lt + ("\"" + (w4 + ("/>" + rest))));
    LiteralStep(p, 4, s5);
    BlanksStep(p, 3, w2, "name=\"lt\"", s5);
  }

  /** The hidden input from `value="` on: the ticket is the one group. */
  lemma LoginTicketTail(w4: string, lt: string, rest: string)
    requires |w4| > 0 && AllIn(w4, Space)
    requires |lt| > 0 && AllIn(lt, Word)
    ensures MatchTokens(LoginTicketPattern[6..], "value=\"" + (lt + ("\"" + (w4 + ("/>" + rest))))) == Some(lt)
  {
    var p := LoginTicketPattern;
    var s10 := "/>" + rest;
    var s9 := w4 + s10;
    var s8 := "\"" + s9;
    var s7 := lt + s8;
    assert p[6].Literal? && p[7].Capture? && p[8].Literal? && p[9] == Blanks && p[10].Literal?;
    assert p[11..] == [];
    LiteralStep(p, 10, rest);
    BlanksStep(p, 9, w4, "/>", rest);
    LiteralStep(p, 8, s9);
    CaptureStep(p, 7, lt, s8, []);
    assert lt + [] == lt;
    LiteralStep(p, 6, s7);
  }

  /** A page whose only `<` before the hidden input is the input's own
      yields that input's ticket. */
  lemma FindLoginTicketOfPage(before: string, w1: string, w2: string, w3: string, w4: string, lt: string, rest: string)
    requires forall i :: 0 <= i < |before| ==> before[i] != '<'
    requires |w1| > 0 && |w2| > 0 && |w3| > 0 && |w4| > 0
    requires AllIn(w1, Space) && AllIn(w2, Space) && AllIn(w3, Space) && AllIn(w4, Space)
    requires |lt| > 0 && AllIn(lt, Word)
    ensures FindLoginTicket(before + LoginInput(w1, w2, w3, w4, lt, rest)) == Some(lt)
  {
    var y := LoginInput(w1, w2, w3, w4, lt, rest);
    forall k | 0 <= k < |before|
      ensures MatchTokens(LoginTicketPattern, (before + y)[k..]).None?
    {
      var z := (before + y)[k..];
      assert z[0] == before[k];
      assert |z| < 6 || z[..6] != "<input" by {
        if |z| >= 6 {
          assert z[..6][0] == z[0];
        }
      }
    }
    SearchSkipsPrefix(LoginTicketPattern, before, y);
    LoginTicketOfInput(w1, w2, w3, w4, lt, rest);
  }

  /** The JavaScript line the credential POST answers with:
      `var response_url<w>= '<url>ticket=<ticket>'<rest>`. */
  function RedirectScript(w: string, url: string, ticket: string, rest: string): string {
    "var response_url" + (w + ("= '" + (url + ("ticket=" + (ticket + ("'" + rest))))))
  }

  /** No `ticket=` starts where the seventh character is not `=`. */
  lemma NoTicketWithoutEquals(z: string)
    requires |z| <= 6 || z[6] != '='
    ensures MatchTokens(ServiceTicketPattern[4..], z).None?
  {
    if |z| > 6 {
      assert z[..7][6] == z[6];
    }
  }

  lemma ServiceTicketOfScript(w: string, url: string, ticket: string, rest: string)
    requires |w| > 0 && AllIn(w, Space)
    requires forall i :: 0 <= i < |url| ==> url[i] != '\n' && url[i] != '='
    requires |ticket| > 0 && AllIn(ticket, TicketChar)
    ensures MatchTokens(ServiceTicketPattern, RedirectScript(w, url, ticket, rest)) == Some(ticket)
  {
    var q := ServiceTicketPattern;
    var s3 := url + ("ticket=" + (ticket + ("'" + rest)));
    var s2 := "= '" + s3;
    var s1 := w + s2;
    assert q[0].Literal? && q[1] == Blanks && q[2].Literal?;
    ServiceTicketAfterPrefix(url, ticket, rest);
    LiteralStep(q, 2, s3);
    BlanksStep(q, 1, w, "= '", s3);
    LiteralStep(q, 0, s1);
    assert q[0..] == q;
  }

  /** From the lazy `.*?` on: the url is skipped and the ticket captured. */
  lemma ServiceTicketAfterPrefix(url: string, ticket: string, rest: string)
    requires forall i :: 0 <= i < |url| ==> url[i] != '\n' && url[i] != '='
    requires |ticket| > 0 && AllIn(ticket, TicketChar)
    ensures MatchTokens(ServiceTicketPattern[3..], url + ("ticket=" + (ticket + ("'" + rest)))) == Some(ticket)
  {
    var q := ServiceTicketPattern;
    var s6 := "'" + rest;
    var s5 := ticket + s6;
    var s4 := "ticket=" + s5;
    assert q[3] == Lazy && q[4].Literal? && q[5].Capture? && q[6].Literal?;
    assert q[7..] == [];
    LiteralStep(q, 6, rest);
    CaptureStep(q, 5, ticket, s6, []);
    assert ticket + [] == ticket;
    LiteralStep(q, 4, s5);
    NoTicketInUrl(url, s5);
    LazySkips(q, 3, url, s4);
    assert q[3..][0] == Lazy && q[3..][1..] == q[4..];
  }

  /** No position inside a url without `=` or newline starts `ticket=`,
      even one that runs into the `ticket=` after it. */
  lemma NoTicketInUrl(url: string, y: string)
    requires forall i :: 0 <= i < |url| ==> url[i] != '\n' && url[i] != '='
    ensures forall k :: 0 <= k < |url| ==>
      url[k] != '\n' && MatchTokens(ServiceTicketPattern[4..], (url + ("ticket=" + y))[k..]).None?
  {
    var s4 := "ticket=" + y;
    forall k | 0 <= k < |url|
      ensures url[k] != '\n' && MatchTokens(ServiceTicketPattern[4..], (url + s4)[k..]).None?
    {
      var z := (url + s4)[k..];
      assert |z| > 6;
      if k + 6 < |url| {
        assert z[6] == url[k + 6];
      } else {
        var d := k + 6 - |url|;
        assert z[6] == s4[d] == "ticket="[d];
        assert d == 0 || d == 1 || d == 2 || d == 3 || d == 4 || d == 5;
      }
      NoTicketWithoutEquals(z);
    }
  }

  /** A response body with no `v` before the script yields the script's
      service ticket. */
  lemma FindServiceTicketOfPage(before: string, w: string, url: string, ticket: string, rest: string)
    requires forall i :: 0 <= i < |before| ==> before[i] != 'v'
    requires |w| > 0 && AllIn(w, Space)
    requires forall i :: 0 <= i < |url| ==> url[i] != '\n' && url[i] != '='
    requires |ticket| > 0 && AllIn(ticket, TicketChar)
    ensures FindServiceTicket(before + RedirectScript(w, url, ticket, rest)) == Some(ticket)
  {
    var y := RedirectScript(w, url, ticket, rest);
    forall k | 0 <= k < |before|
      ensures MatchTokens(ServiceTicketPattern, (before + y)[k..]).None?
    {
      var z := (before + y)[k..];
      assert z[0] == before[k];
      assert |z| < 16 || z[..16] != "var response_url" by {
        if |z| >= 16 {
          assert z[..16][0] == z[0];
        }
      }
    }
    SearchSkipsPrefix(ServiceTicketPattern, before, y);
    ServiceTicketOfScript(w, url, ticket, rest);
  }

  /** A newline between `= '` and `ticket=` stops the lazy `.*?`: the
      ticket on the next line is not found from that position. */
  lemma NewlineStopsLazy(ticket: string, rest: string)
    ensures MatchTokens(ServiceTicketPattern[3..], "\n" + ("ticket=" + (ticket + ("'" + rest)))) == None
  {
    var q := ServiceTicketPattern;
    var s := "\n" + ("ticket=" + (ticket + ("'" + rest)));
    assert q[3..][0] == Lazy && q[3..][1..] == q[4..];
    NoTicketWithoutEquals(s);
    assert s[0] == '\n';
  }

  // ---- str.rstrip ----

  /** `s.rstrip(chars)`: drop trailing characters that belong to `chars`. */
  function RStrip(s: string, chars: set<char>): (r: string)
    ensures |r| <= |s| && r == s[..|r|]
    ensures r == [] || r[|r| - 1] !in chars
    ensures forall i :: |r| <= i < |s| ==> s[i] in chars
  {
    if s != [] && s[|s| - 1] in chars then RStrip(s[..|s| - 1], chars) else s
  }

  /** The three properties of RStrip pin its result down: any prefix that
      ends outside `chars` and leaves only `chars` behind is the same one. */
  lemma RStripUnique(s: string, chars: set<char>, r: string)
    requires |r| <= |s| && r == s[..|r|]
    requires r == [] || r[|r| - 1] !in chars
    requires forall i :: |r| <= i < |s| ==> s[i] in chars
    ensures r == RStrip(s, chars)
  {
    var q := RStrip(s, chars);
    assert q == [] || s[|q| - 1] !in chars;
    assert r == [] || s[|r| - 1] !in chars;
    assert |q| == |r|;
  }

  /** The character set `'.garmin.com'` denotes as an `rstrip` argument. */
  const GarminChars: set<char> := {'.', 'g', 'a', 'r', 'm', 'i', 'n', 'c', 'o'}

  /** `resp.json().get('host').rstrip('.garmin.com')`. */
  function SsoHostname(host: string): string {
    RStrip(host, GarminChars)
  }

  /** rstrip removes a character set, not a suffix: the host
      "sso.garmin.com" loses its third letter too. */
  lemma SsoHostnameStripsCharacters()
    ensures SsoHostname("sso.garmin.com") == "ss"
    ensures SsoHostname("connect.garmin.com") == "connect"
  {
    var h := "sso.garmin.com";
    assert h[..2] == "ss";
    assert forall i :: 2 <= i < |h| ==> h[i] in GarminChars;
    RStripUnique(h, GarminChars, "ss");
    var c := "connect.garmin.com";
    assert c[..7] == "connect";
    assert forall i :: 7 <= i < |c| ==> c[i] in GarminChars;
    RStripUnique(c, GarminChars, "connect");
  }
}
