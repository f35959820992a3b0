/** The session cookie: the `directus_token=([^;]+)` lookup every route runs on
    the Cookie header, and the Set-Cookie value written at login. */
module SessionCookie {
  import opened Base

  /** The literal the pattern starts with. */
  const Name: string := "directus_token="

  /** `Name` occurs in `s` at position `i`. */
  predicate NameAt(s: string, i: int) {
    0 <= i && i + |Name| <= |s| && s[i..i + |Name|] == Name
  }

  /** The pattern matches at `i`: the name, then at least one character that is not `;`. */
  predicate MatchAt(s: string, i: int) {
    NameAt(s, i) && i + |Name| < |s| && s[i + |Name|] != ';'
  }

  /** No `;` in `t`. */
  predicate NoSemicolon(t: string) {
    forall k :: 0 <= k < |t| ==> t[k] != ';'
  }

  /** End of the run of non-`;` characters that starts at `j` (what `[^;]+` consumes greedily). */
  function RunEnd(s: string, j: nat): (e: nat)
    requires j <= |s|
    ensures j <= e <= |s|
    ensures forall k :: j <= k < e ==> s[k] != ';'
    ensures e == |s| || s[e] == ';'
    decreases |s| - j
  {
    if j == |s| || s[j] == ';' then j else RunEnd(s, j + 1)
  }

  /** The leftmost position at or after `i` where the pattern matches: the
      regular-expression engine tries start positions from left to right. */
  function FirstMatch(s: string, i: nat): (r: Option<nat>)
    requires i <= |s|
    ensures r.None? ==> forall k :: i <= k <= |s| ==> !MatchAt(s, k)
    ensures r.Some? ==> i <= r.value < |s| && MatchAt(s, r.value)
    ensures r.Some? ==> forall k :: i <= k < r.value ==> !MatchAt(s, k)
    decreases |s| - i
  {
    if i == |s| then None
    else if MatchAt(s, i) then Some(i)
    else FirstMatch(s, i + 1)
  }

  /** `cookie.match(/directus_token=([^;]+)/)?.[1]`: the first capture group. */
  function Match(cookie: string): (r: Option<string>)
    ensures r.None? <==> forall i :: 0 <= i <= |cookie| ==> !MatchAt(cookie, i)
    ensures r.Some? ==> r.value != [] && NoSemicolon(r.value)
  {
    match FirstMatch(cookie, 0)
    case None => None
    case Some(i) => Some(cookie[i + |Name| .. RunEnd(cookie, i + |Name|)])
  }

  /** `getToken` of the dashboard: null for a missing or empty header, else the match. */
  function GetToken(header: Option<string>): (r: Option<string>)
    ensures header.None? || header == Some("") ==> r.None?
    ensures r.Some? ==> header.Some? && r == Match(header.value)
    ensures Truthy(header) ==> r == Match(header.value)
  {
    if !Truthy(header) then None else Match(header.value)
  }

  /** The admin loader's `(header || "").match(...)?.[1]`. */
  function TokenOrEmpty(header: Option<string>): (r: Option<string>)
    ensures r == GetToken(header)
  {
    Match(header.GetOr(""))
  }

  /** The login pages' `header?.match(...)?.[1]`. */
  function TokenOptional(header: Option<string>): (r: Option<string>)
    ensures r == GetToken(header)
  {
    match header
    case None => None
    case Some(c) => Match(c)
  }

  /** The three spellings of the lookup extract the same token from every header. */
  lemma LookupsAgree(header: Option<string>)
    ensures GetToken(header) == TokenOrEmpty(header) == TokenOptional(header)
  {
  }

  /** The capture is the maximal non-`;` run after the leftmost matching name:
      it starts right after the name at `i`, and ends at the end of the string or at a `;`. */
  lemma MatchIsLeftmostRun(s: string, i: nat)
    requires MatchAt(s, i)
    requires forall k :: 0 <= k < i ==> !MatchAt(s, k)
    ensures Match(s).Some?
    ensures var t := Match(s).value;
            var j := i + |Name|;
            j + |t| <= |s| && s[j .. j + |t|] == t && (j + |t| == |s| || s[j + |t|] == ';')
  {
  }

  /** The run after the name is exactly `t` when `t` is `;`-free and followed by
      the end of the string or a `;`. */
  lemma RunEndAfter(s: string, j: nat, t: string)
    requires j + |t| <= |s| && s[j .. j + |t|] == t && NoSemicolon(t)
    requires j + |t| == |s| || s[j + |t|] == ';'
    ensures RunEnd(s, j) == j + |t|
  {
  }

  /** A window of `|Name|` characters that covers a `;` or a space is not the name. */
  lemma NotNameOverSeparator(s: string, k: int, p: int)
    requires 0 <= k <= p < k + |Name| && p < |s|
    requires s[p] == ';' || s[p] == ' '
    ensures !NameAt(s, k)
  {
  }

  /** Round trip: a header that starts with `directus_token=<t>` and continues
      with nothing or with `;...` yields `t`. */
  lemma {:induction false} RoundTrip(t: string, rest: string)
    requires t != [] && NoSemicolon(t)
    requires rest == [] || rest[0] == ';'
    ensures Match(Name + t + rest) == Some(t)
  {
    var s := Name + t + rest;
    var j := |Name|;
    assert s[0 .. j] == Name;
    assert s[j] == t[0];
    assert MatchAt(s, 0);
    assert s[j .. j + |t|] == t;
    if rest != [] {
      assert s[j + |t|] == rest[0];
    }
    CaptureAt(s, 0, t);
  }

  /** The unanchored pattern also matches a longer cookie name: `xdirectus_token=a` yields `a`. */
  lemma UnanchoredMatch()
    ensures Match("xdirectus_token=a") == Some("a")
  {
    var s := "xdirectus_token=a";
    assert s[1 .. 1 + |Name|] == Name;
    assert !MatchAt(s, 0) by { assert s[0] != Name[0]; }
    assert s[1 + |Name| ..] == "a";
    CaptureAt(s, 1, "a");
  }

  /** An empty first value is skipped: `directus_token=;directus_token=b` yields `b`. */
  lemma EmptyValueSkipped()
    ensures Match("directus_token=;directus_token=b") == Some("b")
  {
    var s := "directus_token=;directus_token=b";
    var i := |Name| + 1;
    assert s[i .. i + |Name|] == Name;
    assert forall k :: 0 <= k < i ==> !MatchAt(s, k) by {
      forall k | 0 <= k < i
        ensures !MatchAt(s, k)
      {
        if k == 0 {
          assert s[|Name|] == ';';
        } else {
          NotNameOverSeparator(s, k, |Name|);
        }
      }
    }
    assert s[i + |Name| ..] == "b";
    CaptureAt(s, i, "b");
  }

  /** The Set-Cookie value written by every login action. */
  function SetCookieValue(token: string): (v: string)
    ensures |v| > |Name| + |token| && v[..|Name|] == Name
    ensures v[|Name| .. |Name| + |token|] == token && v[|Name| + |token|] == ';'
    ensures v[|Name| + |token| ..] == "; Path=/; HttpOnly; SameSite=Lax"
  {
    Name + token + "; Path=/; HttpOnly; SameSite=Lax"
  }

  /** The `name=value` pair of a Set-Cookie value: the text before its first `;`,
      which is what the browser sends back in the Cookie header. */
  function CookiePair(setCookie: string): (p: string)
    ensures NoSemicolon(p)
    ensures |p| <= |setCookie| && p == setCookie[..|p|]
  {
    setCookie[..RunEnd(setCookie, 0)]
  }

  /** The pair the browser keeps from the login cookie is `directus_token=<token>`. */
  lemma PairOfSetCookie(token: string)
    requires NoSemicolon(token)
    ensures CookiePair(SetCookieValue(token)) == Name + token
  {
    var s := SetCookieValue(token);
    var p := Name + token;
    assert s[0 .. |p|] == p;
    assert s[|p|] == ';';
    assert NoSemicolon(p) by {
      assert forall k :: 0 <= k < |Name| ==> Name[k] != ';';
      forall k | 0 <= k < |p| ensures p[k] != ';' {
        if k >= |Name| { assert p[k] == token[k - |Name|]; }
      }
    }
    RunEndAfter(s, 0, p);
  }

  /** A token written by a login action is read back from a Cookie header that
      holds its pair, possibly followed by further cookies, if and only if it is
      non-empty and free of `;`. */
  lemma {:induction false} LoginCookieRoundTrip(token: string, rest: string)
    requires rest == [] || rest[0] == ';'
    ensures NoSemicolon(token) ==> CookiePair(SetCookieValue(token)) == Name + token
    ensures Match(Name + token + rest) == Some(token) <==> token != [] && NoSemicolon(token)
  {
    if NoSemicolon(token) {
      PairOfSetCookie(token);
    }
    if token != [] && NoSemicolon(token) {
      RoundTrip(token, rest);
    }
  }

  /** The leftmost match at `i`, a `;`-free `t` right after the name, then the
      end or a `;`: the lookup yields `t`. */
  lemma CaptureAt(s: string, i: nat, t: string)
    requires MatchAt(s, i) && forall k :: 0 <= k < i ==> !MatchAt(s, k)
    requires i + |Name| + |t| <= |s| && s[i + |Name| .. i + |Name| + |t|] == t && NoSemicolon(t)
    requires i + |Name| + |t| == |s| || s[i + |Name| + |t|] == ';'
    ensures Match(s) == Some(t)
  {
  }

  /** Text without the name that ends in a separator holds no match start, whatever follows it. */
  lemma NoMatchInside(before: string, rest: string)
    requires forall i :: 0 <= i <= |before| - |Name| ==> !NameAt(before, i)
    requires before == [] || before[|before| - 1] == ';' || before[|before| - 1] == ' '
    ensures forall k :: 0 <= k < |before| ==> !MatchAt(before + rest, k)
  {
    var s := before + rest;
    var b := |before|;
    forall k | 0 <= k < b
      ensures !MatchAt(s, k)
    {
      if k + |Name| <= b {
        assert s[k .. k + |Name|] == before[k .. k + |Name|];
        assert !NameAt(before, k);
      } else {
        assert s[b - 1] == before[b - 1];
        NotNameOverSeparator(s, k, b - 1);
      }
    }
  }

  /** Where the parts of a Cookie header holding the login pair stand. */
  lemma PairLayout(before: string, token: string, after: string)
    requires token != [] && NoSemicolon(token)
    ensures var s := before + CookiePair(SetCookieValue(token)) + after;
            var j := |before| + |Name|;
            s == before + (Name + token + after) &&
            j + |token| <= |s| && s[j .. j + |token|] == token &&
            (j + |token| == |s| || s[j + |token|] == (if after == [] then ';' else after[0])) &&
            MatchAt(s, |before|)
  {
    PairOfSetCookie(token);
    var s := before + Name + token + after;
    var j := |before| + |Name|;
    assert s == before + (Name + token + after);
    assert s[|before| .. j] == Name;
    assert s[j .. j + |token|] == token;
    assert s[j] == token[0];
  }

  /** The login cookie's pair, after other cookies that do not contain the name
      and end in a separator, is still found. */
  lemma {:induction false} FoundAmongOtherCookies(before: string, token: string, after: string)
    requires forall i :: 0 <= i <= |before| - |Name| ==> !NameAt(before, i)
    requires before == [] || before[|before| - 1] == ';' || before[|before| - 1] == ' '
    requires token != [] && NoSemicolon(token)
    requires after == [] || after[0] == ';'
    ensures Match(before + CookiePair(SetCookieValue(token)) + after) == Some(token)
  {
    PairLayout(before, token, after);
    NoMatchInside(before, Name + token + after);
    CaptureAt(before + CookiePair(SetCookieValue(token)) + after, |before|, token);
  }
}
