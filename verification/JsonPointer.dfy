/**
 The text form of JSON pointers in the bundled JSON library (RFC 6901): the in-place
 replacement loop, escaping in two ordered passes, split and to_string. They are
 proved to be inverse to each other in both directions.
 */
module JsonPointer {
  import opened Options

  datatype Result<T> = Ok(value: T) | Err(code: nat)

  // ---- replace_substring ----

  /** Every occurrence of f, from left to right, replaced with t; replaced text is not searched again. */
  function Replace(s: string, f: string, t: string): string
    requires f != ""
  {
    if s == "" then ""
    else if f <= s then t + Replace(s[|f|..], f, t)
    else [s[0]] + Replace(s[1..], f, t)
  }

  /** std::string::find. */
  method Find(s: string, f: string, pos: nat) returns (at: Option<nat>)
    requires f != ""
    ensures at.Some? ==> pos <= at.value <= |s| && f <= s[at.value..]
    ensures forall i :: pos <= i < (if at.Some? then at.value else |s|) ==> !(f <= s[i..])
  {
    var i := pos;
    while i < |s|
      invariant pos <= i
      invariant forall k :: pos <= k < i && k < |s| ==> !(f <= s[k..])
    {
      if f <= s[i..] {
        return Some(i);
      }
      i := i + 1;
    }
    return None;
  }

  /** Text without an occurrence is copied. */
  lemma {:induction false} ReplaceSkips(s: string, f: string, t: string, n: nat)
    requires f != "" && n <= |s| && forall i :: 0 <= i < n ==> !(f <= s[i..])
    ensures Replace(s, f, t) == s[..n] + Replace(s[n..], f, t)
  {
    if n > 0 {
      assert !(f <= s[0..]);
      forall i | 0 <= i < n - 1 ensures !(f <= s[1..][i..]) {
        assert s[1..][i..] == s[i + 1..];
      }
      ReplaceSkips(s[1..], f, t, n - 1);
      assert s[1..][n - 1..] == s[n..];
      assert s[..n] == [s[0]] + s[1..][..n - 1];
    }
  }

  /** replace_substring: one loop that edits the string in place. */
  method ReplaceSubstring(s0: string, f: string, t: string) returns (s: string)
    requires f != ""
    ensures s == Replace(s0, f, t)
  {
    hide Replace;
    s := s0;
    var pos := Find(s, f, 0);
    ghost var done, rest := "", s0;   // done has been edited, rest is still as in s0
    while pos.Some?
      invariant s == done + rest && Replace(s0, f, t) == done + Replace(rest, f, t)
      invariant pos.Some? ==> |done| <= pos.value <= |s| && f <= s[pos.value..]
      invariant forall i :: |done| <= i < (if pos.Some? then pos.value else |s|) ==> !(f <= s[i..])
      decreases |rest|
    {
      ghost var n := pos.value - |done|;
      RestAt(s, done, rest, f, n);
      ReplaceSkips(rest, f, t, n);
      ReplaceHere(rest[n..], f, t);
      s := s[..pos.value] + t + s[pos.value + |f|..];
      done, rest := done + rest[..n] + t, rest[n..][|f|..];
      pos := Find(s, f, pos.value + |t|);
    }
    RestAt(s, done, rest, f, |rest|);
    ReplaceSkips(rest, f, t, |rest|);
    ReplaceNothing(f, t);
    assert rest[|rest|..] == "";
  }

  /** Positions in the edited string, seen in the part that is still unchanged. */
  lemma RestAt(s: string, done: string, rest: string, f: string, n: nat)
    requires s == done + rest && n <= |rest|
    requires forall i :: |done| <= i < |done| + n ==> !(f <= s[i..])
    ensures forall i :: 0 <= i < n ==> !(f <= rest[i..])
    ensures s[|done| + n..] == rest[n..] && s[..|done| + n] == done + rest[..n]
  {
    forall i | 0 <= i < n ensures !(f <= rest[i..]) {
      assert s[|done| + i..] == rest[i..];
    }
  }

  lemma ReplaceHere(s: string, f: string, t: string)
    requires f != "" && f <= s
    ensures Replace(s, f, t) == t + Replace(s[|f|..], f, t)
  {
  }

  lemma ReplaceNothing(f: string, t: string)
    requires f != ""
    ensures Replace("", f, t) == ""
  {
  }

  // ---- escaping ----

  /** escape: first "~" to "~0", then "/" to "~1". */
  function Escape(s: string): string {
    Replace(Replace(s, "~", "~0"), "/", "~1")
  }

  /** unescape: first "~1" to "/", then "~0" to "~". */
  function Unescape(s: string): string {
    Replace(Replace(s, "~1", "/"), "~0", "~")
  }

  method EscapeString(s0: string) returns (s: string)
    ensures s == Escape(s0)
  {
    s := ReplaceSubstring(s0, "~", "~0");
    s := ReplaceSubstring(s, "/", "~1");
  }

  method UnescapeString(s0: string) returns (s: string)
    ensures s == Unescape(s0)
  {
    s := ReplaceSubstring(s0, "~1", "/");
    s := ReplaceSubstring(s, "~0", "~");
  }

  /** RFC 6901, section 4: every tilde starts one of the two escapes. */
  predicate WellEscaped(s: string) {
    forall i :: 0 <= i < |s| && s[i] == '~' ==> EscapeAt(s, i)
  }

  predicate EscapeAt(s: string, i: nat) {
    i + 1 < |s| && (s[i + 1] == '0' || s[i + 1] == '1')
  }

  /** Section 3: how one character of a token is written. */
  function Code(c: char): string {
    if c == '~' then "~0" else if c == '/' then "~1" else [c]
  }

  function Encode(s: string): string {
    if s == "" then "" else Code(s[0]) + Encode(s[1..])
  }

  /** Section 4: how a written token is read, from left to right. */
  function Decode(s: string): string {
    if s == "" then ""
    else if s[0] == '~' && |s| >= 2 then [if s[1] == '1' then '/' else '~'] + Decode(s[2..])
    else [s[0]] + Decode(s[1..])
  }

  lemma {:induction false} ReplaceCharAppend(a: string, b: string, c: char, t: string)
    ensures Replace(a + b, [c], t) == Replace(a, [c], t) + Replace(b, [c], t)
  {
    hide Replace;
    if a == "" {
      assert a + b == b;
      ReplaceNothing([c], t);
    } else {
      ReplaceCharAppend(a[1..], b, c, t);
      assert (a + b)[1..] == a[1..] + b;
      ReplaceChar(a, c, t);
      ReplaceChar(a + b, c, t);
    }
  }

  lemma ReplaceChar(s: string, c: char, t: string)
    requires s != ""
    ensures Replace(s, [c], t) == (if s[0] == c then t else [s[0]]) + Replace(s[1..], [c], t)
  {
    if s[0] == c {
      assert [c] <= s;
    } else {
      NotPrefix([c], s, 0);
    }
  }

  /** The two passes of escape write each character by its own code. */
  lemma {:induction false} EscapeIsEncode(s: string)
    ensures Escape(s) == Encode(s)
  {
    if s != "" {
      EscapeIsEncode(s[1..]);
      var first := if s[0] == '~' then "~0" else [s[0]];
      assert s == [s[0]] + s[1..];
      ReplaceCharAppend([s[0]], s[1..], '~', "~0");
      OneChar(s[0], '~', "~0");
      ReplaceCharAppend(first, Replace(s[1..], "~", "~0"), '/', "~1");
      EscapedChar(s[0]);
    }
  }

  lemma OneChar(c: char, d: char, t: string)
    ensures Replace([c], [d], t) == if c == d then t else [c]
  {
    if c == d {
      assert [d] <= [c];
    } else {
      NotPrefix([d], [c], 0);
      assert [c][1..] == "";
    }
  }

  lemma NotPrefix(f: string, s: string, i: nat)
    requires i < |f| && i < |s| && f[i] != s[i]
    ensures !(f <= s)
  {
  }

  lemma EscapedChar(c: char)
    ensures Replace(if c == '~' then "~0" else [c], "/", "~1") == Code(c)
  {
    if c == '~' {
      assert "~0"[1..] == "0";
      OneChar('0', '/', "~1");
    } else {
      OneChar(c, '/', "~1");
    }
  }

  /** A well-escaped text is a plain character or an escape, and then a well-escaped text. */
  lemma WellEscapedRest(s: string)
    requires s != ""
    ensures if s[0] == '~' then WellEscaped(s) <==> EscapeAt(s, 0) && WellEscaped(s[2..])
            else WellEscaped(s) <==> WellEscaped(s[1..])
  {
    if s[0] != '~' {
      ShiftEscapes(s, 1);
    } else if EscapeAt(s, 0) {
      ShiftEscapes(s, 2);
    }
  }

  lemma ShiftEscapes(s: string, k: nat)
    requires k <= |s| && forall i :: 0 <= i < k && s[i] == '~' ==> EscapeAt(s, i)
    ensures WellEscaped(s) <==> WellEscaped(s[k..])
  {
    if WellEscaped(s) {
      forall i | 0 <= i < |s[k..]| && s[k..][i] == '~' ensures EscapeAt(s[k..], i) {
        assert EscapeAt(s, k + i);
      }
    }
    if WellEscaped(s[k..]) {
      forall i | 0 <= i < |s| && s[i] == '~' ensures EscapeAt(s, i) {
        if i >= k {
          assert s[k..][i - k] == '~' && EscapeAt(s[k..], i - k);
        }
      }
    }
  }

  /** On well-escaped text the two passes of unescape read what the standard says. */
  lemma {:induction false} UnescapeIsDecode(s: string)
    requires WellEscaped(s)
    ensures Unescape(s) == Decode(s)
  {
    hide Replace, WellEscaped;
    if s == "" {
      ReplaceNothing("~1", "/");
      ReplaceNothing("~0", "~");
    } else {
      WellEscapedRest(s);
      if s[0] != '~' {
        UnescapeIsDecode(s[1..]);
        NotPrefix("~1", s, 0);
        PassOver(s, "~1", "/");
        var once := [s[0]] + Replace(s[1..], "~1", "/");
        NotPrefix("~0", once, 0);
        PassOver(once, "~0", "~");
        assert once[1..] == Replace(s[1..], "~1", "/");
      } else {
        var rest := s[2..];
        UnescapeIsDecode(rest);
        if s[1] == '1' {
          assert "~1" <= s;
          ReplaceHere(s, "~1", "/");
          var once := "/" + Replace(rest, "~1", "/");
          NotPrefix("~0", once, 0);
          PassOver(once, "~0", "~");
          assert once[1..] == Replace(rest, "~1", "/");
        } else {
          assert s[1..][1..] == rest && s[1..][0] == '0';
          NotPrefix("~1", s, 1);
          NotPrefix("~1", s[1..], 0);
          PassOver(s, "~1", "/");
          PassOver(s[1..], "~1", "/");
          var once := Replace(s, "~1", "/");
          assert once == "~0" + Replace(rest, "~1", "/");
          ReplaceHere(once, "~0", "~");
          assert once[2..] == Replace(rest, "~1", "/");
        }
      }
    }
  }

  /** A position where f does not start is copied. */
  lemma PassOver(s: string, f: string, t: string)
    requires f != "" && s != "" && !(f <= s)
    ensures Replace(s, f, t) == [s[0]] + Replace(s[1..], f, t)
  {
  }

  /** A code is a well-escaped text without a slash, and reads back as its character. */
  lemma {:induction false} DecodeEncode(s: string)
    ensures Decode(Encode(s)) == s && WellEscaped(Encode(s)) && '/' !in Encode(s)
  {
    if s != "" {
      DecodeEncode(s[1..]);
      var e := Encode(s);
      WellEscapedRest(e);
      if s[0] == '~' || s[0] == '/' {
        assert e[2..] == Encode(s[1..]);
      } else {
        assert e[1..] == Encode(s[1..]);
      }
    }
  }

  lemma {:induction false} EncodeDecode(s: string)
    requires WellEscaped(s) && '/' !in s
    ensures Encode(Decode(s)) == s
  {
    if s != "" {
      WellEscapedRest(s);
      var d := Decode(s);
      if s[0] == '~' {
        EncodeDecode(s[2..]);
        assert d[1..] == Decode(s[2..]);
        assert s == s[..2] + s[2..];
      } else {
        EncodeDecode(s[1..]);
        assert d[1..] == Decode(s[1..]);
      }
    }
  }

  /** unescape undoes escape, for every string. */
  lemma UnescapeEscape(s: string)
    ensures Unescape(Escape(s)) == s && WellEscaped(Escape(s)) && '/' !in Escape(s)
  {
    EscapeIsEncode(s);
    DecodeEncode(s);
    UnescapeIsDecode(Encode(s));
  }

  /** escape undoes unescape on every text that split lets through. */
  lemma EscapeUnescape(s: string)
    requires WellEscaped(s) && '/' !in s
    ensures Escape(Unescape(s)) == s
  {
    UnescapeIsDecode(s);
    EscapeIsEncode(Decode(s));
    EncodeDecode(s);
  }

  // ---- tokens ----

  /** The text up to the first slash at or after start. */
  function NextSlash(s: string, start: nat): (i: nat)
    requires start <= |s|
    ensures start <= i <= |s| && (i < |s| ==> s[i] == '/') && '/' !in s[start..i]
    decreases |s| - start
  {
    if start == |s| || s[start] == '/' then start
    else
      var i := NextSlash(s, start + 1);
      assert s[start..i] == [s[start]] + s[start + 1..i];
      i
  }

  /** The texts between slashes, from start on. */
  function TokensFrom(s: string, start: nat): (ts: seq<string>)
    requires start <= |s|
    ensures |ts| >= 1
    decreases |s| - start
  {
    var slash := NextSlash(s, start);
    [s[start..slash]] + if slash == |s| then [] else TokensFrom(s, slash + 1)
  }

  lemma TokensStep(s: string, start: nat)
    requires start <= |s|
    ensures var slash := NextSlash(s, start);
            TokensFrom(s, start) == [s[start..slash]] + if slash == |s| then [] else TokensFrom(s, slash + 1)
  {
  }

  function UnescapeAll(raw: seq<string>): (ts: seq<string>)
    ensures |ts| == |raw|
  {
    seq(|raw|, i requires 0 <= i < |raw| => Unescape(raw[i]))
  }

  predicate AllWellEscaped(raw: seq<string>) {
    forall t <- raw :: WellEscaped(t)
  }

  /** split, with the error codes the library throws. */
  function Split(s: string): Result<seq<string>> {
    if s == "" then Ok([])
    else if s[0] != '/' then Err(107)
    else if AllWellEscaped(TokensFrom(s, 1)) then Ok(UnescapeAll(TokensFrom(s, 1)))
    else Err(108)
  }

  lemma NoTokens()
    ensures AllWellEscaped([]) && UnescapeAll([]) == []
  {
  }

  lemma OneMoreToken(raw: seq<string>, rest: seq<string>)
    requires rest != [] && AllWellEscaped(raw) && WellEscaped(rest[0])
    ensures AllWellEscaped(raw + [rest[0]]) && UnescapeAll(raw + [rest[0]]) == UnescapeAll(raw) + [Unescape(rest[0])]
    ensures raw + [rest[0]] + rest[1..] == raw + rest
  {
    hide WellEscaped, Unescape;
  }

  lemma BadToken(raw: seq<string>, rest: seq<string>)
    requires rest != [] && !WellEscaped(rest[0])
    ensures !AllWellEscaped(raw + rest)
  {
    hide WellEscaped;
    assert rest[0] in raw + rest;
  }

  /** The check of one token, tilde by tilde. */
  method CheckEscapes(token: string) returns (ok: bool)
    ensures ok == WellEscaped(token)
  {
    var pos := 0;
    while pos < |token|
      invariant 0 <= pos <= |token|
      invariant forall i :: 0 <= i < pos && token[i] == '~' ==> EscapeAt(token, i)
    {
      if token[pos] == '~' {
        if pos == |token| - 1 || (token[pos + 1] != '0' && token[pos + 1] != '1') {
          assert !EscapeAt(token, pos);
          return false;
        }
      }
      pos := pos + 1;
    }
    return true;
  }

  /** find_first_of('/', start). */
  method FindSlash(s: string, start: nat) returns (slash: Option<nat>)
    requires start <= |s|
    ensures slash == if NextSlash(s, start) < |s| then Some(NextSlash(s, start)) else None
  {
    var i := start;
    while i < |s| && s[i] != '/'
      invariant start <= i <= |s| && NextSlash(s, start) == NextSlash(s, i)
    {
      i := i + 1;
    }
    slash := if i < |s| then Some(i) else None;
  }

  /** split: the loop over slashes, which throws at the first badly escaped token. */
  method SplitString(s: string) returns (r: Result<seq<string>>)
    ensures r == Split(s)
  {
    hide WellEscaped, Unescape, TokensFrom, NextSlash, UnescapeAll, AllWellEscaped;
    if s == "" {
      return Ok([]);
    }
    if s[0] != '/' {
      return Err(107);
    }
    var result := [];
    ghost var raw, rest := [], TokensFrom(s, 1);
    NoTokens();
    var slash := FindSlash(s, 1);
    var start := 1;
    while start != 0
      invariant 0 <= start <= |s| && TokensFrom(s, 1) == raw + rest
      invariant rest == if start == 0 then [] else TokensFrom(s, start)
      invariant start != 0 ==> slash == if NextSlash(s, start) < |s| then Some(NextSlash(s, start)) else None
      invariant AllWellEscaped(raw) && result == UnescapeAll(raw)
      decreases if start == 0 then 0 else |s| + 1 - start
    {
      var token := if slash.Some? then s[start..slash.value] else s[start..];
      TokensStep(s, start);
      assert rest[0] == token;
      var ok := CheckEscapes(token);
      if !ok {
        BadToken(raw, rest);
        return Err(108);
      }
      var text := UnescapeString(token);
      result := result + [text];
      OneMoreToken(raw, rest);
      raw, rest := raw + [token], rest[1..];
      start := if slash.None? then 0 else slash.value + 1;
      slash := FindSlash(s, start);
    }
    assert raw == TokensFrom(s, 1);
    r := Ok(result);
  }

  /** to_string: the tokens folded from the left. */
  function ToString(ts: seq<string>): string {
    if ts == [] then ""
    else ToString(ts[..|ts| - 1]) + "/" + Escape(ts[|ts| - 1])
  }

  method ToStringLoop(ts: seq<string>) returns (s: string)
    ensures s == ToString(ts)
  {
    s := "";
    for i := 0 to |ts|
      invariant s == ToString(ts[..i])
    {
      assert ts[..i + 1][..i] == ts[..i];
      var e := EscapeString(ts[i]);
      s := s + "/" + e;
    }
    assert ts[..|ts|] == ts;
  }

  // ---- the two directions ----

  /** The same text built from the first token on. */
  function Join(raw: seq<string>): string {
    if raw == [] then "" else "/" + raw[0] + Join(raw[1..])
  }

  function EscapeAll(ts: seq<string>): (raw: seq<string>)
    ensures |raw| == |ts|
  {
    seq(|ts|, i requires 0 <= i < |ts| => Escape(ts[i]))
  }

  lemma {:induction false} JoinAppend(a: seq<string>, t: string)
    ensures Join(a + [t]) == Join(a) + "/" + t
  {
    if a == [] {
      assert a + [t] == [t];
      assert Join([t]) == "/" + t + Join([]);
    } else {
      JoinAppend(a[1..], t);
      assert (a + [t])[1..] == a[1..] + [t];
    }
  }

  lemma {:induction false} ToStringIsJoin(ts: seq<string>)
    ensures ToString(ts) == Join(EscapeAll(ts))
  {
    hide Escape;
    if ts != [] {
      var n := |ts| - 1;
      ToStringIsJoin(ts[..n]);
      assert EscapeAll(ts) == EscapeAll(ts[..n]) + [Escape(ts[n])];
      JoinAppend(EscapeAll(ts[..n]), Escape(ts[n]));
    }
  }

  /** Tokens without slashes are found again where Join put them. */
  lemma {:induction false} TokensOfJoin(pre: string, raw: seq<string>)
    requires raw != [] && forall t <- raw :: '/' !in t
    ensures TokensFrom(pre + Join(raw), |pre| + 1) == raw
    decreases |raw|
  {
    hide TokensFrom, NextSlash, Join;
    var s, start, t := pre + Join(raw), |pre| + 1, raw[0];
    assert t in raw && raw == [t] + raw[1..];
    JoinFirst(t, raw[1..]);
    SlashAfter(pre, raw);
    TokensStep(s, start);
    if |raw| > 1 {
      var pre' := pre + "/" + t;
      assert s == pre' + Join(raw[1..]);
      TokensOfJoin(pre', raw[1..]);
    }
  }

  lemma SlashAfter(pre: string, raw: seq<string>)
    requires raw != [] && '/' !in raw[0]
    ensures var s, start := pre + Join(raw), |pre| + 1;
            start <= |s| && NextSlash(s, start) == start + |raw[0]|
            && s[start..start + |raw[0]|] == raw[0]
            && (start + |raw[0]| == |s| <==> |raw| == 1)
  {
    var s, start, end := pre + Join(raw), |pre| + 1, |pre| + 1 + |raw[0]|;
    assert s == pre + "/" + raw[0] + Join(raw[1..]);
    assert s[start..end] == raw[0];
    if |raw| > 1 {
      assert s[end] == '/';
    }
    NextSlashIs(s, start, end);
  }

  lemma {:induction false} NextSlashIs(s: string, start: nat, end: nat)
    requires start <= end <= |s| && (end < |s| ==> s[end] == '/') && '/' !in s[start..end]
    ensures NextSlash(s, start) == end
    decreases end - start
  {
    if start < end {
      assert s[start..end][0] == s[start];
      assert s[start + 1..end] == s[start..end][1..];
      NextSlashIs(s, start + 1, end);
    }
  }

  lemma JoinFirst(t: string, raw: seq<string>)
    ensures Join([t] + raw) == "/" + t + Join(raw) && Join([]) == ""
  {
    assert ([t] + raw)[1..] == raw;
  }

  lemma {:induction false} JoinOfTokens(s: string, start: nat)
    requires start <= |s|
    ensures Join(TokensFrom(s, start)) == "/" + s[start..]
    ensures forall t <- TokensFrom(s, start) :: '/' !in t
    decreases |s| - start
  {
    hide TokensFrom, NextSlash, Join;
    var slash := NextSlash(s, start);
    var t := s[start..slash];
    TokensStep(s, start);
    if slash < |s| {
      JoinOfTokens(s, slash + 1);
      assert s[start..] == t + "/" + s[slash + 1..];
      JoinFirst(t, TokensFrom(s, slash + 1));
    } else {
      assert t == s[start..] && TokensFrom(s, start) == [t] + [];
      JoinFirst(t, []);
    }
  }

  /** Parsing what was printed gives the tokens back, for every list of tokens. */
  lemma SplitToString(ts: seq<string>)
    ensures Split(ToString(ts)) == Ok(ts)
  {
    hide Escape, Unescape, WellEscaped, TokensFrom;
    ToStringIsJoin(ts);
    if ts != [] {
      var raw := EscapeAll(ts);
      forall i | 0 <= i < |ts| ensures Unescape(raw[i]) == ts[i] && WellEscaped(raw[i]) && '/' !in raw[i] {
        UnescapeEscape(ts[i]);
      }
      TokensOfJoin("", raw);
      assert "" + Join(raw) == Join(raw);
      assert UnescapeAll(raw) == ts;
    }
  }

  /** Printing what was parsed gives the text back, for every text that is accepted. */
  lemma ToStringSplit(s: string)
    requires Split(s).Ok?
    ensures ToString(Split(s).value) == s
  {
    hide Escape, Unescape, WellEscaped, TokensFrom;
    if s != "" {
      var raw := TokensFrom(s, 1);
      JoinOfTokens(s, 1);
      ToStringIsJoin(UnescapeAll(raw));
      forall i | 0 <= i < |raw| ensures Escape(Unescape(raw[i])) == raw[i] {
        assert raw[i] in raw;
        EscapeUnescape(raw[i]);
      }
      assert EscapeAll(UnescapeAll(raw)) == raw;
      assert s == "/" + s[1..];
    }
  }

  /** Which texts are accepted, and which error the others get. */
  lemma SplitAccepts(s: string)
    ensures Split(s).Ok? <==> s == "" || (s[0] == '/' && WellEscaped(s))
    ensures Split(s) == Err(107) <==> s != "" && s[0] != '/'
    ensures Split(s) == Err(108) <==> s != "" && s[0] == '/' && !WellEscaped(s)
  {
    if s != "" && s[0] == '/' {
      TokensWellEscaped(s, 1);
      WellEscapedRest(s);
    }
  }

  lemma {:induction false} TokensWellEscaped(s: string, start: nat)
    requires start <= |s|
    ensures AllWellEscaped(TokensFrom(s, start)) <==> WellEscaped(s[start..])
    decreases |s| - start
  {
    hide WellEscaped, TokensFrom, NextSlash;
    var slash := NextSlash(s, start);
    TokensStep(s, start);
    if slash < |s| {
      TokensWellEscaped(s, slash + 1);
      assert s[start..] == s[start..slash] + "/" + s[slash + 1..];
      EscapesAtSlash(s[start..slash], s[slash + 1..]);
      var rest := TokensFrom(s, slash + 1);
      assert AllWellEscaped([s[start..slash]] + rest) <==> WellEscaped(s[start..slash]) && AllWellEscaped(rest);
    } else {
      assert s[start..slash] == s[start..];
      assert TokensFrom(s, start) == [s[start..]];
    }
  }

  /** No escape reaches across a slash. */
  lemma EscapesAtSlash(a: string, b: string)
    ensures WellEscaped(a + "/" + b) <==> WellEscaped(a) && WellEscaped(b)
  {
    var s := a + "/" + b;
    if WellEscaped(s) {
      assert s[|a|] == '/';
      forall i | 0 <= i < |a| && a[i] == '~' ensures EscapeAt(a, i) {
        assert s[i] == '~' && EscapeAt(s, i);
      }
      forall i | 0 <= i < |b| && b[i] == '~' ensures EscapeAt(b, i) {
        assert s[|a| + 1 + i] == '~' && EscapeAt(s, |a| + 1 + i);
      }
    }
    if WellEscaped(a) && WellEscaped(b) {
      forall i | 0 <= i < |s| && s[i] == '~' ensures EscapeAt(s, i) {
        if i < |a| {
          assert EscapeAt(a, i);
        } else {
          assert b[i - |a| - 1] == '~' && EscapeAt(b, i - |a| - 1);
        }
      }
    }
  }

  // ---- examples of section 5 of RFC 6901 ----

  lemma EscapesOfOneCharacter()
    ensures Escape("~") == "~0" && Escape("/") == "~1" && Unescape("~0") == "~" && Unescape("~1") == "/"
  {
    hide Replace;
    EncodeOne();
    EscapeIsEncode("~");
    EscapeIsEncode("/");
    UnescapeEscape("~");
    UnescapeEscape("/");
  }

  lemma EncodeOne()
    ensures Encode("~") == "~0" && Encode("/") == "~1"
  {
  }

  /** The order of the passes matters: "~01" is the token "~1". */
  lemma EscapedTilde()
    ensures Escape("~1") == "~01" && Unescape("~01") == "~1"
  {
    hide Replace;
    EscapeIsEncode("~1");
    UnescapeEscape("~1");
    EncodeTildeOne();
  }

  lemma EncodeTildeOne()
    ensures Encode("~1") == "~01"
  {
    assert "~1"[1..] == "1" && "1"[1..] == "";
    assert Encode("1") == "1";
  }

  /** The slash separates tokens, and an escaped one belongs to its token. */
  lemma PrintedPointers()
    ensures ToString(["a/b"]) == "/a~1b" && ToString(["m~n"]) == "/m~0n" && ToString(["foo", "0"]) == "/foo/0" && ToString([""]) == "/"
  {
    hide Replace, Escape;
    EscapeIsEncode("a/b");
    EscapeIsEncode("m~n");
    EscapeIsEncode("foo");
    EscapeIsEncode("0");
    EscapeIsEncode("");
    EncodedTokens();
    assert ["foo", "0"][..1] == ["foo"] && ["foo"][..0] == [] && ["a/b"][..0] == [] && ["m~n"][..0] == [] && [""][..0] == [];
    assert ToString(["foo"]) == "/" + Escape("foo");
  }

  lemma EncodedTokens()
    ensures Encode("a/b") == "a~1b" && Encode("m~n") == "m~0n" && Encode("foo") == "foo" && Encode("0") == "0" && Encode("") == ""
  {
    assert "a/b"[1..] == "/b" && "/b"[1..] == "b" && "b"[1..] == "";
    assert "m~n"[1..] == "~n" && "~n"[1..] == "n" && "n"[1..] == "";
    assert "foo"[1..] == "oo" && "oo"[1..] == "o" && "o"[1..] == "" && "0"[1..] == "";
    assert Encode("b") == "b" && Encode("/b") == "~1b" && Encode("n") == "n" && Encode("~n") == "~0n";
    assert Encode("o") == "o" && Encode("oo") == "oo";
  }

  /** So parsing those texts gives these tokens. */
  lemma ParsedPointers()
    ensures Split("/a~1b") == Ok(["a/b"]) && Split("/m~0n") == Ok(["m~n"]) && Split("/foo/0") == Ok(["foo", "0"])
    ensures Split("/") == Ok([""]) && Split("") == Ok([]) && Split("foo") == Err(107)
  {
    hide ToString;
    PrintedPointers();
    SplitToString(["a/b"]);
    SplitToString(["m~n"]);
    SplitToString(["foo", "0"]);
    SplitToString([""]);
  }
}
