/** String primitives the DAT writer relies on: ordinal replacement, the XML
    escaper `Clean`, ASCII lower-casing, suffix tests and the decimal and hex
    renderings of sizes and digests. */
module Text {

  newtype byte = x: int | 0 <= x < 256

  /** Concatenation is associative; stated once so that proofs about
      sequences of lines need not rediscover it element by element. */
  lemma AppendAssoc<T>(a: seq<T>, b: seq<T>, c: seq<T>)
    ensures (a + b) + c == a + (b + c)
  {
  }

  lemma AppendEmpty<T>(a: seq<T>)
    ensures a + [] == a
  {
  }

  lemma SnocIndex<T>(a: seq<T>, x: T, k: nat)
    requires k <= |a|
    ensures (a + [x])[k] == if k == |a| then x else a[k]
  {
  }

  predicate StartsWith(s: string, prefix: string) {
    |prefix| <= |s| && s[..|prefix|] == prefix
  }

  predicate EndsWith(s: string, suffix: string) {
    |suffix| <= |s| && s[|s| - |suffix|..] == suffix
  }

  /** `s.Replace(pat, rep)` with ordinal comparison: scanning from the left,
      every non-overlapping occurrence of `pat` is replaced by `rep`. */
  function Replace(s: string, pat: string, rep: string): string
    requires |pat| > 0
    decreases |s|
  {
    if |s| < |pat| then s
    else if s[..|pat|] == pat then rep + Replace(s[|pat|..], pat, rep)
    else [s[0]] + Replace(s[1..], pat, rep)
  }

  /** The escaper of DatMaker.clean: five replacements, ampersand first. */
  function Clean(s: string): string {
    var s1 := Replace(s, "&", "&amp;");
    var s2 := Replace(s1, "\"", "&quot;");
    var s3 := Replace(s2, "'", "&apos;");
    var s4 := Replace(s3, "<", "&lt;");
    Replace(s4, ">", "&gt;")
  }

  predicate IsSpecial(c: char) {
    c == '&' || c == '"' || c == '\'' || c == '<' || c == '>'
  }

  /** Reference escaper: each character is rendered on its own. */
  function EscapeChar(c: char): string {
    match c
    case '&' => "&amp;"
    case '"' => "&quot;"
    case '\'' => "&apos;"
    case '<' => "&lt;"
    case '>' => "&gt;"
    case _ => [c]
  }

  function Escape(s: string): string {
    if s == [] then [] else EscapeChar(s[0]) + Escape(s[1..])
  }

  /** The five entities `Clean` introduces. */
  predicate StartsWithEntity(t: string) {
    StartsWith(t, "&amp;") || StartsWith(t, "&quot;") || StartsWith(t, "&apos;")
    || StartsWith(t, "&lt;") || StartsWith(t, "&gt;")
  }

  /** Inverse of the escaper: decodes the five entities, left to right. */
  function Unescape(t: string): string
    decreases |t|
  {
    if t == [] then []
    else if StartsWith(t, "&amp;") then "&" + Unescape(t[5..])
    else if StartsWith(t, "&quot;") then "\"" + Unescape(t[6..])
    else if StartsWith(t, "&apos;") then "'" + Unescape(t[6..])
    else if StartsWith(t, "&lt;") then "<" + Unescape(t[4..])
    else if StartsWith(t, "&gt;") then ">" + Unescape(t[4..])
    else [t[0]] + Unescape(t[1..])
  }

  // ---------------------------------------------------------------------
  // Replace on a one-character pattern
  // ---------------------------------------------------------------------

  lemma {:induction false} ReplaceCharConcat(a: string, b: string, c: char, rep: string)
    ensures Replace(a + b, [c], rep) == Replace(a, [c], rep) + Replace(b, [c], rep)
    decreases |a|
  {
    if a == [] {
      assert a + b == b;
    } else {
      assert (a + b)[..1] == [a[0]];
      assert a[..1] == [a[0]];
      assert (a + b)[1..] == a[1..] + b;
      ReplaceCharConcat(a[1..], b, c, rep);
    }
  }

  lemma {:induction false} ReplaceCharAbsent(s: string, c: char, rep: string)
    requires c !in s
    ensures Replace(s, [c], rep) == s
    decreases |s|
  {
    if s != [] {
      assert s[..1] == [s[0]];
      assert s[0] in s;
      assert forall x :: x in s[1..] ==> x in s;
      ReplaceCharAbsent(s[1..], c, rep);
    }
  }

  lemma ReplaceCharSingle(x: char, c: char, rep: string)
    ensures Replace([x], [c], rep) == if x == c then rep else [x]
  {
    assert [x][..1] == [x];
    assert [x][1..] == [];
  }

  // ---------------------------------------------------------------------
  // Clean agrees with the per-character escaper
  // ---------------------------------------------------------------------

  lemma CleanConcat(a: string, b: string)
    ensures Clean(a + b) == Clean(a) + Clean(b)
  {
    ReplaceCharConcat(a, b, '&', "&amp;");
    var a1, b1 := Replace(a, "&", "&amp;"), Replace(b, "&", "&amp;");
    ReplaceCharConcat(a1, b1, '"', "&quot;");
    var a2, b2 := Replace(a1, "\"", "&quot;"), Replace(b1, "\"", "&quot;");
    ReplaceCharConcat(a2, b2, '\'', "&apos;");
    var a3, b3 := Replace(a2, "'", "&apos;"), Replace(b2, "'", "&apos;");
    ReplaceCharConcat(a3, b3, '<', "&lt;");
    var a4, b4 := Replace(a3, "<", "&lt;"), Replace(b3, "<", "&lt;");
    ReplaceCharConcat(a4, b4, '>', "&gt;");
  }

  lemma CleanChar(x: char)
    ensures Clean([x]) == EscapeChar(x)
  {
    if IsSpecial(x) {
      CleanSpecialChar(x);
    } else {
      ReplaceCharAbsent([x], '&', "&amp;");
      ReplaceCharAbsent([x], '"', "&quot;");
      ReplaceCharAbsent([x], '\'', "&apos;");
      ReplaceCharAbsent([x], '<', "&lt;");
      ReplaceCharAbsent([x], '>', "&gt;");
    }
  }

  lemma CleanOfAmp()
    ensures Clean(['&']) == "&amp;"
  {
    ReplaceCharSingle('&', '&', "&amp;");
    ReplaceCharAbsent("&amp;", '"', "&quot;");
    ReplaceCharAbsent("&amp;", '\'', "&apos;");
    ReplaceCharAbsent("&amp;", '<', "&lt;");
    ReplaceCharAbsent("&amp;", '>', "&gt;");
  }

  lemma CleanOfQuot()
    ensures Clean(['"']) == "&quot;"
  {
    ReplaceCharAbsent(['"'], '&', "&amp;");
    ReplaceCharSingle('"', '"', "&quot;");
    ReplaceCharAbsent("&quot;", '\'', "&apos;");
    ReplaceCharAbsent("&quot;", '<', "&lt;");
    ReplaceCharAbsent("&quot;", '>', "&gt;");
  }

  lemma CleanOfApos()
    ensures Clean(['\'']) == "&apos;"
  {
    ReplaceCharAbsent(['\''], '&', "&amp;");
    ReplaceCharAbsent(['\''], '"', "&quot;");
    ReplaceCharSingle('\'', '\'', "&apos;");
    ReplaceCharAbsent("&apos;", '<', "&lt;");
    ReplaceCharAbsent("&apos;", '>', "&gt;");
  }

  lemma CleanOfLt()
    ensures Clean(['<']) == "&lt;"
  {
    ReplaceCharAbsent(['<'], '&', "&amp;");
    ReplaceCharAbsent(['<'], '"', "&quot;");
    ReplaceCharAbsent(['<'], '\'', "&apos;");
    ReplaceCharSingle('<', '<', "&lt;");
    ReplaceCharAbsent("&lt;", '>', "&gt;");
  }

  lemma CleanOfGt()
    ensures Clean(['>']) == "&gt;"
  {
    ReplaceCharAbsent(['>'], '&', "&amp;");
    ReplaceCharAbsent(['>'], '"', "&quot;");
    ReplaceCharAbsent(['>'], '\'', "&apos;");
    ReplaceCharAbsent(['>'], '<', "&lt;");
    ReplaceCharSingle('>', '>', "&gt;");
  }

  lemma CleanSpecialChar(x: char)
    requires IsSpecial(x)
    ensures Clean([x]) == EscapeChar(x)
  {
    match x
    case '&' => CleanOfAmp();
    case '"' => CleanOfQuot();
    case '\'' => CleanOfApos();
    case '<' => CleanOfLt();
    case '>' => CleanOfGt();
  }

  /** The five-step substitution equals escaping every character on its own;
      this holds because `&` is replaced first and no later replacement
      introduces a character an earlier step looks for. */
  lemma {:induction false} CleanIsEscape(s: string)
    ensures Clean(s) == Escape(s)
    decreases |s|
  {
    if s == [] {
      assert Clean(s) == s;
    } else {
      assert s == [s[0]] + s[1..];
      CleanConcat([s[0]], s[1..]);
      CleanChar(s[0]);
      CleanIsEscape(s[1..]);
    }
  }

  // ---------------------------------------------------------------------
  // What Clean guarantees
  // ---------------------------------------------------------------------

  lemma {:induction false} EscapeHasNoQuotesOrBrackets(s: string)
    ensures '"' !in Escape(s) && '\'' !in Escape(s) && '<' !in Escape(s) && '>' !in Escape(s)
    decreases |s|
  {
    if s != [] {
      EscapeHasNoQuotesOrBrackets(s[1..]);
      var e := EscapeChar(s[0]);
      assert '"' !in e && '\'' !in e && '<' !in e && '>' !in e;
      assert Escape(s) == e + Escape(s[1..]);
    }
  }

  /** Nothing `Clean` returns can close an attribute value or open a tag. */
  lemma CleanHasNoQuotesOrBrackets(s: string)
    ensures '"' !in Clean(s) && '\'' !in Clean(s) && '<' !in Clean(s) && '>' !in Clean(s)
  {
    CleanIsEscape(s);
    EscapeHasNoQuotesOrBrackets(s);
  }

  lemma {:induction false} EscapeAmpersands(s: string)
    ensures forall i :: 0 <= i < |Escape(s)| && Escape(s)[i] == '&' ==> StartsWithEntity(Escape(s)[i..])
    decreases |s|
  {
    if s != [] {
      EscapeAmpersands(s[1..]);
      var e, rest := EscapeChar(s[0]), Escape(s[1..]);
      var r := Escape(s);
      assert r == e + rest;
      forall i | 0 <= i < |r| && r[i] == '&'
        ensures StartsWithEntity(r[i..])
      {
        if i < |e| {
          assert e[i] == '&';
          assert i == 0;
          assert r[..|e|] == e;
        } else {
          assert r[i..] == rest[i - |e|..];
        }
      }
    }
  }

  /** Every ampersand in `Clean`'s result begins one of the five entities. */
  lemma CleanAmpersands(s: string)
    ensures forall i :: 0 <= i < |Clean(s)| && Clean(s)[i] == '&' ==> StartsWithEntity(Clean(s)[i..])
  {
    CleanIsEscape(s);
    EscapeAmpersands(s);
  }

  lemma {:induction false} EscapeLength(s: string)
    ensures |Escape(s)| >= |s|
    ensures (exists i :: 0 <= i < |s| && IsSpecial(s[i])) ==> |Escape(s)| > |s|
    ensures (forall i :: 0 <= i < |s| ==> !IsSpecial(s[i])) ==> Escape(s) == s
    decreases |s|
  {
    if s != [] {
      EscapeLength(s[1..]);
      if exists i :: 0 <= i < |s| && IsSpecial(s[i]) {
        var i :| 0 <= i < |s| && IsSpecial(s[i]);
        if i > 0 {
          assert IsSpecial(s[1..][i - 1]);
        }
      }
      if forall i :: 0 <= i < |s| ==> !IsSpecial(s[i]) {
        assert forall i :: 0 <= i < |s[1..]| ==> s[1..][i] == s[i + 1];
        assert s == [s[0]] + s[1..];
      }
    }
  }

  /** `Clean` leaves a string alone exactly when it holds none of the five
      special characters. */
  lemma CleanIdentity(s: string)
    ensures Clean(s) == s <==> forall i :: 0 <= i < |s| ==> !IsSpecial(s[i])
  {
    CleanIsEscape(s);
    EscapeLength(s);
  }

  lemma UnescapeAmp(t: string)
    ensures Unescape("&amp;" + t) == "&" + Unescape(t)
  {
    var u := "&amp;" + t;
    assert u[..5] == "&amp;" && u[5..] == t;
  }

  lemma UnescapeQuot(t: string)
    ensures Unescape("&quot;" + t) == "\"" + Unescape(t)
  {
    var u := "&quot;" + t;
    assert u[1] == 'q';
    assert u[..6] == "&quot;" && u[6..] == t;
  }

  lemma UnescapeApos(t: string)
    ensures Unescape("&apos;" + t) == "'" + Unescape(t)
  {
    var u := "&apos;" + t;
    assert u[1] == 'a' && u[2] == 'p';
    assert u[..6] == "&apos;" && u[6..] == t;
  }

  lemma UnescapeLt(t: string)
    ensures Unescape("&lt;" + t) == "<" + Unescape(t)
  {
    var u := "&lt;" + t;
    assert u[1] == 'l';
    assert u[..4] == "&lt;" && u[4..] == t;
  }

  lemma UnescapeGt(t: string)
    ensures Unescape("&gt;" + t) == ">" + Unescape(t)
  {
    var u := "&gt;" + t;
    assert u[1] == 'g';
    assert !StartsWith(u, "&amp;") && !StartsWith(u, "&quot;") && !StartsWith(u, "&apos;") && !StartsWith(u, "&lt;");
    assert u[..4] == "&gt;" && u[4..] == t;
  }

  lemma UnescapeAfterEntity(c: char, t: string)
    requires IsSpecial(c)
    ensures Unescape(EscapeChar(c) + t) == [c] + Unescape(t)
  {
    match c
    case '&' => UnescapeAmp(t);
    case '"' => UnescapeQuot(t);
    case '\'' => UnescapeApos(t);
    case '<' => UnescapeLt(t);
    case '>' => UnescapeGt(t);
  }

  lemma UnescapeAfterEscapeChar(c: char, t: string)
    ensures Unescape(EscapeChar(c) + t) == [c] + Unescape(t)
  {
    if IsSpecial(c) {
      UnescapeAfterEntity(c, t);
    } else {
      var u := [c] + t;
      assert u[0] == c && u[1..] == t;
      assert !StartsWithEntity(u);
    }
  }

  lemma {:induction false} UnescapeEscape(s: string)
    ensures Unescape(Escape(s)) == s
    decreases |s|
  {
    if s != [] {
      UnescapeAfterEscapeChar(s[0], Escape(s[1..]));
      UnescapeEscape(s[1..]);
      assert s == [s[0]] + s[1..];
    }
  }

  /** Decoding the entities recovers the raw string, so different names never
      render alike. */
  lemma CleanRoundTrip(s: string)
    ensures Unescape(Clean(s)) == s
  {
    CleanIsEscape(s);
    UnescapeEscape(s);
  }

  lemma CleanInjective(a: string, b: string)
    requires Clean(a) == Clean(b)
    ensures a == b
  {
    CleanRoundTrip(a);
    CleanRoundTrip(b);
  }

  // ---------------------------------------------------------------------
  // Removing a suffix with Replace
  // ---------------------------------------------------------------------

  predicate OccursAt(s: string, pat: string, i: nat) {
    i + |pat| <= |s| && s[i..i + |pat|] == pat
  }

  ghost predicate Occurs(s: string, pat: string) {
    exists i: nat :: OccursAt(s, pat, i)
  }

  lemma OccursInTail(s: string, pat: string)
    requires |s| > 0 && Occurs(s[1..], pat)
    ensures Occurs(s, pat)
  {
    var i: nat :| OccursAt(s[1..], pat, i);
    assert s[1..][i..i + |pat|] == s[i + 1..i + 1 + |pat|];
    assert OccursAt(s, pat, i + 1);
  }

  lemma {:induction false} ReplaceAbsent(s: string, pat: string, rep: string)
    requires |pat| > 0 && !Occurs(s, pat)
    ensures Replace(s, pat, rep) == s
    decreases |s|
  {
    if |s| >= |pat| {
      assert !OccursAt(s, pat, 0);
      assert s[0..|pat|] == s[..|pat|];
      if Occurs(s[1..], pat) {
        OccursInTail(s, pat);
      }
      ReplaceAbsent(s[1..], pat, rep);
      assert s == [s[0]] + s[1..];
    }
  }

  /** `.Replace(".chd", "")` on a name `b + ".chd"` strips exactly the suffix
      when `.chd` does not already occur in `b`: the pattern has no border, so
      no occurrence can straddle the end of `b`. */
  lemma {:induction false} ReplaceStripsChdSuffix(b: string)
    requires !Occurs(b, ".chd")
    ensures Replace(b + ".chd", ".chd", "") == b
    decreases |b|
  {
    var s := b + ".chd";
    if b == [] {
      assert s[..4] == ".chd";
      assert s[4..] == [];
    } else {
      assert s[..4] != ".chd" by {
        if |b| >= 4 {
          assert !OccursAt(b, ".chd", 0);
          assert s[..4] == b[0..4];
        } else if |b| == 3 {
          assert s[3] == '.';
        } else if |b| == 2 {
          assert s[2] == '.';
        } else {
          assert s[1] == '.';
        }
      }
      if Occurs(b[1..], ".chd") {
        OccursInTail(b, ".chd");
      }
      ReplaceStripsChdSuffix(b[1..]);
      assert s[1..] == b[1..] + ".chd";
      assert b == [b[0]] + b[1..];
    }
  }

  // ---------------------------------------------------------------------
  // Case folding and renderings of numbers
  // ---------------------------------------------------------------------

  /** `ToLower` restricted to ASCII letters. */
  function ToLower(s: string): (r: string)
    ensures |r| == |s|
    ensures forall i :: 0 <= i < |s| ==> r[i] == if 'A' <= s[i] <= 'Z' then (s[i] as int + 32) as char else s[i]
  {
    if s == [] then []
    else [if 'A' <= s[0] <= 'Z' then (s[0] as int + 32) as char else s[0]] + ToLower(s[1..])
  }

  const HexDigits: string := "0123456789abcdef"

  /** `Utils.ArrByte.ToString`: two lower-case hex digits per byte, empty for
      an absent digest. */
  function Hex(b: seq<byte>): (h: string)
    ensures |h| == 2 * |b|
    ensures forall i :: 0 <= i < |h| ==> h[i] in HexDigits
  {
    if b == [] then ""
    else [HexDigits[b[0] as int / 16], HexDigits[b[0] as int % 16]] + Hex(b[1..])
  }

  predicate IsDigit(c: char) {
    '0' <= c <= '9'
  }

  /** The decimal rendering `file.Size` gets in a string concatenation. */
  function NatToString(n: nat): (r: string)
    ensures |r| > 0
    ensures forall i :: 0 <= i < |r| ==> IsDigit(r[i])
    ensures n < 10 <==> |r| == 1
  {
    if n < 10 then [('0' as int + n) as char]
    else NatToString(n / 10) + [('0' as int + n % 10) as char]
  }
}
