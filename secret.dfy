/**
 * Reading the shared TOTP secret from the environment. All three scripts
 * and the login flow (through get-totp.js) do the same thing: take
 * TOTP_SECRET or the empty string, delete every run of whitespace, trim,
 * and refuse to go on when nothing is left.
 */
module Secret {
  import opened Wrappers

  /**
   * The characters JavaScript's `\s` and `String.prototype.trim` both treat
   * as white space: the ECMAScript WhiteSpace set (tab, vertical tab, form
   * feed, zero-width no-break space, and the Unicode space separators) and
   * the LineTerminator set.
   */
  predicate IsJsSpace(c: char) {
    c == '\t' || c == '\U{000B}' || c == '\U{000C}' || c == ' ' || c == '\U{00A0}'
    || c == '\U{1680}' || ('\U{2000}' <= c <= '\U{200A}') || c == '\U{202F}'
    || c == '\U{205F}' || c == '\U{3000}' || c == '\U{FEFF}'
    || c == '\n' || c == '\r' || c == '\U{2028}' || c == '\U{2029}'
  }

  predicate NoSpaces(s: string) {
    forall i :: 0 <= i < |s| ==> !IsJsSpace(s[i])
  }

  /** A secret the scripts accept: non-empty and free of white space. */
  type Key = s: string | s != [] && NoSpaces(s) witness "A"

  /** `s.replace(/\s+/g, '')`: every run of white space deleted. */
  function StripSpaces(s: string): (r: string)
    ensures NoSpaces(r)
    ensures |r| <= |s|
  {
    if s == [] then []
    else (if IsJsSpace(s[0]) then [] else [s[0]]) + StripSpaces(s[1..])
  }

  function TrimStart(s: string): (r: string)
    ensures exists i :: 0 <= i <= |s| && r == s[i..]
    ensures r != [] ==> !IsJsSpace(r[0])
    ensures forall i :: 0 <= i < |s| - |r| ==> IsJsSpace(s[i])
  {
    if s != [] && IsJsSpace(s[0]) then
      var r := TrimStart(s[1..]);
      assert forall i :: 0 < i < |s| - |r| ==> s[i] == s[1..][i - 1];
      var k :| 0 <= k <= |s[1..]| && r == s[1..][k..];
      assert r == s[k + 1..];
      r
    else
      assert s == s[0..];
      s
  }

  function TrimEnd(s: string): (r: string)
    ensures exists j :: 0 <= j <= |s| && r == s[..j]
    ensures r != [] ==> !IsJsSpace(r[|r| - 1])
    ensures forall i :: |r| <= i < |s| ==> IsJsSpace(s[i])
  {
    if s != [] && IsJsSpace(s[|s| - 1]) then
      var r := TrimEnd(s[..|s| - 1]);
      var k :| 0 <= k <= |s| - 1 && r == s[..|s| - 1][..k];
      assert r == s[..k];
      r
    else
      assert s == s[..|s|];
      s
  }

  /** `String.prototype.trim`: leading and trailing white space removed. */
  function Trim(s: string): string {
    TrimEnd(TrimStart(s))
  }

  /** `(process.env.TOTP_SECRET || '').replace(/\s+/g,'').trim()`. */
  function Normalize(raw: Option<string>): (r: string)
    ensures NoSpaces(r)
  {
    var s := StripSpaces(if raw.Some? then raw.value else "");
    TrimOfSpaceless(s);
    Trim(s)
  }

  datatype LoadError = MissingSecret  // 'Defina TOTP_SECRET no .env', then exit(1)

  /** The start-up check `if (!secret) { ...; process.exit(1); }`. */
  function Load(raw: Option<string>): (r: Result<Key, LoadError>)
    ensures r.Ok? <==> Normalize(raw) != []
    ensures r.Ok? ==> r.value == Normalize(raw)
    ensures r.Err? ==> r.error == MissingSecret
  {
    var s := Normalize(raw);
    if s == [] then Err(MissingSecret) else Ok(s)
  }

  /** Trimming a string without white space changes nothing. */
  lemma TrimOfSpaceless(s: string)
    requires NoSpaces(s)
    ensures Trim(s) == s
  {
  }

  /** Stripping keeps a string that has no white space as it is. */
  lemma {:induction false} StripSpacesKeepsSpaceless(s: string)
    requires NoSpaces(s)
    ensures StripSpaces(s) == s
  {
    if s != [] {
      assert NoSpaces(s[1..]) by {
        assert forall i :: 0 <= i < |s[1..]| ==> s[1..][i] == s[i + 1];
      }
      StripSpacesKeepsSpaceless(s[1..]);
      assert s == [s[0]] + s[1..];
    }
  }

  /** Stripping keeps every other character, as often as it occurred. */
  lemma {:induction false} StripSpacesKeepsOthers(s: string, c: char)
    requires !IsJsSpace(c)
    ensures multiset(StripSpaces(s))[c] == multiset(s)[c]
  {
    if s != [] {
      StripSpacesKeepsOthers(s[1..], c);
      assert s == [s[0]] + s[1..];
    }
  }

  /**
   * Stripping works piece by piece, so it keeps the other characters in
   * their order: stripping a concatenation concatenates the stripped parts.
   */
  lemma {:induction false} StripSpacesAppend(a: string, b: string)
    ensures StripSpaces(a + b) == StripSpaces(a) + StripSpaces(b)
  {
    if a != [] {
      assert (a + b)[0] == a[0];
      assert (a + b)[1..] == a[1..] + b;
      StripSpacesAppend(a[1..], b);
      var h := if IsJsSpace(a[0]) then [] else [a[0]];
      assert h + (StripSpaces(a[1..]) + StripSpaces(b)) == (h + StripSpaces(a[1..])) + StripSpaces(b);
    } else {
      assert a + b == b;
    }
  }

  /** Normalising an already normalised secret gives it back unchanged. */
  lemma NormalizeIdempotent(raw: Option<string>)
    ensures Normalize(Some(Normalize(raw))) == Normalize(raw)
  {
    var n := Normalize(raw);
    StripSpacesKeepsSpaceless(n);
    TrimOfSpaceless(n);
  }

  /** A secret made only of white space is rejected, just like a missing one. */
  lemma {:induction false} BlankSecretRejected(raw: string)
    requires forall i :: 0 <= i < |raw| ==> IsJsSpace(raw[i])
    ensures Load(Some(raw)) == Err(MissingSecret)
  {
    StripAllSpaces(raw);
  }

  lemma {:induction false} StripAllSpaces(s: string)
    requires forall i :: 0 <= i < |s| ==> IsJsSpace(s[i])
    ensures StripSpaces(s) == []
  {
    if s != [] {
      assert forall i :: 0 <= i < |s[1..]| ==> s[1..][i] == s[i + 1];
      StripAllSpaces(s[1..]);
    }
  }
}
