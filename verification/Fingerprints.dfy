/**
 A link's identity as one string, and reading it back.

 The seven fields are escaped and joined with a separator. The panel's parser walks the
 string a character at a time. The two undo each other for every link, so two links share a
 fingerprint exactly when all seven fields agree.
 */
module Fingerprints {
  import opened Wrappers
  import opened Text
  import opened Models

  const SEPARATOR := '|'
  const ESCAPE := '\\'

  /** `value.replace(c, sub)` for a single character. */
  function Replace(value: string, c: char, sub: string): string {
    if value == "" then "" else (if value[0] == c then sub else [value[0]]) + Replace(value[1..], c, sub)
  }

  function Escaped(value: string): string {
    Replace(Replace(value, ESCAPE, [ESCAPE, ESCAPE]), SEPARATOR, [ESCAPE, SEPARATOR])
  }

  function EscapedChar(c: char): string {
    if c == ESCAPE || c == SEPARATOR then [ESCAPE, c] else [c]
  }

  function JoinEscaped(fields: seq<string>): string {
    if fields == [] then ""
    else if |fields| == 1 then Escaped(fields[0])
    else Escaped(fields[0]) + [SEPARATOR] + JoinEscaped(fields[1..])
  }

  function Fingerprint(l: Link): string {
    JoinEscaped(IdentityFields(l))
  }

  lemma {:induction false} ReplaceConcat(a: string, b: string, c: char, sub: string)
    ensures Replace(a + b, c, sub) == Replace(a, c, sub) + Replace(b, c, sub)
  {
    if a == "" {
      assert a + b == b;
    } else {
      var head := if a[0] == c then sub else [a[0]];
      assert (a + b)[0] == a[0] && (a + b)[1..] == a[1..] + b;
      ReplaceConcat(a[1..], b, c, sub);
      assert head + (Replace(a[1..], c, sub) + Replace(b, c, sub)) ==
        (head + Replace(a[1..], c, sub)) + Replace(b, c, sub);
    }
  }

  /** The two replacements together escape each character on its own. */
  lemma EscapedStep(value: string)
    requires value != ""
    ensures Escaped(value) == EscapedChar(value[0]) + Escaped(value[1..])
  {
    var c := value[0];
    var once := if c == ESCAPE then [ESCAPE, ESCAPE] else [c];
    ReplaceConcat(once, Replace(value[1..], ESCAPE, [ESCAPE, ESCAPE]), SEPARATOR, [ESCAPE, SEPARATOR]);
    assert once[1..] == if c == ESCAPE then [ESCAPE] else "";
    assert [ESCAPE][1..] == "";
    assert Replace(once, SEPARATOR, [ESCAPE, SEPARATOR]) == EscapedChar(c);
  }

  lemma {:induction false} EscapedConcat(a: string, b: string)
    ensures Escaped(a + b) == Escaped(a) + Escaped(b)
  {
    ReplaceConcat(a, b, ESCAPE, [ESCAPE, ESCAPE]);
    ReplaceConcat(Replace(a, ESCAPE, [ESCAPE, ESCAPE]), Replace(b, ESCAPE, [ESCAPE, ESCAPE]),
                  SEPARATOR, [ESCAPE, SEPARATOR]);
  }

  // Reading back.

  /** The parts still to come, given the part being read and whether an escape is pending. */
  function Parts(s: string, current: string, escaped: bool): (parts: seq<string>)
    ensures parts != []
  {
    if s == "" then [current]
    else if escaped then Parts(s[1..], current + [s[0]], false)
    else if s[0] == ESCAPE then Parts(s[1..], current, true)
    else if s[0] == SEPARATOR then [current] + Parts(s[1..], "", false)
    else Parts(s[1..], current + [s[0]], false)
  }

  datatype ParsedFingerprint = ParsedFingerprint(
    backend: string, source: string, sourceEndpoint: string, group: string,
    target: string, targetEndpoint: string, feature: string)

  function Parsed(parts: seq<string>): Option<ParsedFingerprint> {
    if |parts| != 7 then None
    else Some(ParsedFingerprint(parts[0], parts[1], parts[2], parts[3], parts[4], parts[5], parts[6]))
  }

  /** The panel's parser: one pass over the characters. */
  method ParseFingerprint(fingerprint: string) returns (parsed: Option<ParsedFingerprint>)
    ensures parsed == Parsed(Parts(fingerprint, "", false))
  {
    var parts: seq<string> := [];
    var current := "";
    var escaped := false;
    for i := 0 to |fingerprint|
      invariant parts + Parts(fingerprint[i..], current, escaped) == Parts(fingerprint, "", false)
    {
      var character := fingerprint[i];
      assert fingerprint[i..][1..] == fingerprint[i + 1..];
      if escaped {
        current := current + [character];
        escaped := false;
      } else if character == ESCAPE {
        escaped := true;
      } else if character == SEPARATOR {
        parts := parts + [current];
        current := "";
      } else {
        current := current + [character];
      }
    }
    parts := parts + [current];
    if |parts| != 7 {
      return None;
    }
    return Some(ParsedFingerprint(parts[0], parts[1], parts[2], parts[3], parts[4], parts[5], parts[6]));
  }

  lemma {:induction false} PartsOfEscaped(value: string, rest: string, current: string)
    ensures Parts(Escaped(value) + rest, current, false) == Parts(rest, current + value, false)
    decreases |value|
  {
    if value == "" {
      assert Escaped(value) + rest == rest && current + value == current;
    } else {
      EscapedStep(value);
      var c := value[0];
      var s := Escaped(value) + rest;
      var tail := Escaped(value[1..]) + rest;
      assert s == EscapedChar(c) + tail;
      if c == ESCAPE || c == SEPARATOR {
        assert s[1..] == [c] + tail;
        assert s[1..][1..] == tail;
      } else {
        assert s[1..] == tail;
      }
      PartsOfEscaped(value[1..], rest, current + [c]);
      assert current + [c] + value[1..] == current + value;
    }
  }

  /** Splitting what was joined gives back the fields, whatever characters they hold. */
  lemma {:induction false} PartsOfJoin(fields: seq<string>)
    requires fields != []
    ensures Parts(JoinEscaped(fields), "", false) == fields
  {
    if |fields| == 1 {
      PartsOfEscaped(fields[0], "", "");
      assert Escaped(fields[0]) + "" == Escaped(fields[0]);
    } else {
      var rest := [SEPARATOR] + JoinEscaped(fields[1..]);
      assert JoinEscaped(fields) == Escaped(fields[0]) + rest;
      PartsOfEscaped(fields[0], rest, "");
      assert "" + fields[0] == fields[0];
      assert rest[1..] == JoinEscaped(fields[1..]);
      PartsOfJoin(fields[1..]);
      assert [fields[0]] + fields[1..] == fields;
    }
  }

  /** Parsing a link's fingerprint returns its seven fields. */
  lemma ParseUndoesPrint(l: Link)
    ensures Parsed(Parts(Fingerprint(l), "", false)) == Parsed(IdentityFields(l))
    ensures Parsed(IdentityFields(l)).Some?
  {
    PartsOfJoin(IdentityFields(l));
  }

  /** What makes two links the same device write. */
  ghost predicate SameWrite(a: Link, b: Link) {
    && a.backend == b.backend
    && a.source.Identity() == b.source.Identity()
    && a.sourceEndpoint == b.sourceEndpoint
    && a.emitterGroup == b.emitterGroup
    && a.target.handle.Identity() == b.target.handle.Identity()
    && a.target.endpoint == b.target.endpoint
    && a.feature == b.feature
  }

  /** Two links share a fingerprint exactly when they are the same device write. */
  lemma FingerprintIsIdentity(a: Link, b: Link)
    ensures Fingerprint(a) == Fingerprint(b) <==> SameWrite(a, b)
  {
    if Fingerprint(a) == Fingerprint(b) {
      var f, g := IdentityFields(a), IdentityFields(b);
      PartsOfJoin(f);
      PartsOfJoin(g);
      assert f[0] == g[0] && f[1] == g[1] && f[2] == g[2] && f[3] == g[3] && f[4] == g[4] && f[5] == g[5] &&
        f[6] == g[6];
      assert a.backend == b.backend by {
        assert |f[0]| == |g[0]|;
      }
      DecimalInjective(a.sourceEndpoint, b.sourceEndpoint);
      FeatureNameInjective(a.feature, b.feature);
      EndpointTextInjective(a.target.endpoint, b.target.endpoint);
    }
  }

  lemma EndpointTextInjective(a: Option<int>, b: Option<int>)
    requires EndpointText(a) == EndpointText(b)
    ensures a == b
  {
    if a.Some? && b.Some? {
      DecimalInjective(a.value, b.value);
    } else if a.Some? {
      DecimalChars(a.value);
    } else if b.Some? {
      DecimalChars(b.value);
    }
  }

  // Which strings print back as themselves.

  /** Every escape stands before a character that needs one. */
  predicate Canonical(s: string) {
    if s == "" then true
    else if s[0] == ESCAPE then |s| >= 2 && (s[1] == ESCAPE || s[1] == SEPARATOR) && Canonical(s[2..])
    else Canonical(s[1..])
  }

  lemma {:induction false} JoinedPartsStart(s: string, current: string)
    ensures JoinEscaped(Parts(s, current, false)) == Escaped(current) + JoinEscaped(Parts(s, "", false))
    decreases |s|
  {
    if s == "" {
    } else if s[0] == ESCAPE {
      if |s| == 1 {
        assert s[1..] == "";
        assert Parts(s, current, false) == Parts(s[1..], current, true) == [current];
        assert Parts(s, "", false) == Parts(s[1..], "", true) == [""];
      } else {
        JoinedPartsStart(s[2..], current + [s[1]]);
        JoinedPartsStart(s[2..], "" + [s[1]]);
        EscapedConcat(current, [s[1]]);
        assert s[1..][1..] == s[2..] && "" + [s[1]] == [s[1]];
      }
    } else if s[0] == SEPARATOR {
      var rest := Parts(s[1..], "", false);
      assert ([current] + rest)[1..] == rest && ([""] + rest)[1..] == rest;
      assert Escaped("") == "";
    } else {
      JoinedPartsStart(s[1..], current + [s[0]]);
      JoinedPartsStart(s[1..], "" + [s[0]]);
      EscapedConcat(current, [s[0]]);
      assert "" + [s[0]] == [s[0]];
    }
  }

  /** What was parsed, printed again. */
  function Reprinted(s: string): string {
    JoinEscaped(Parts(s, "", false))
  }

  lemma ReprintedSeparator(s: string)
    requires s != "" && s[0] == SEPARATOR
    ensures Reprinted(s) == [SEPARATOR] + Reprinted(s[1..])
  {
    var rest := Parts(s[1..], "", false);
    assert ([""] + rest)[1..] == rest;
    assert Escaped("") == "";
  }

  lemma ReprintedPlain(s: string)
    requires s != "" && s[0] != ESCAPE && s[0] != SEPARATOR
    ensures Reprinted(s) == [s[0]] + Reprinted(s[1..])
  {
    hide JoinEscaped;
    assert "" + [s[0]] == [s[0]];
    JoinedPartsStart(s[1..], [s[0]]);
    EscapedStep([s[0]]);
  }

  lemma ReprintedEscape(s: string)
    requires |s| >= 2 && s[0] == ESCAPE
    ensures Reprinted(s) == EscapedChar(s[1]) + Reprinted(s[2..])
  {
    hide JoinEscaped;
    assert s[1..][1..] == s[2..] && "" + [s[1]] == [s[1]];
    assert Parts(s, "", false) == Parts(s[1..], "", true);
    assert Parts(s[1..], "", true) == Parts(s[2..], [s[1]], false);
    JoinedPartsStart(s[2..], [s[1]]);
    OneCharEscaped(s[1]);
  }

  lemma OneCharEscaped(c: char)
    ensures Escaped([c]) == EscapedChar(c)
  {
    EscapedStep([c]);
    assert [c][1..] == "" && Escaped("") == "";
  }

  lemma ReprintedLoneEscape(s: string)
    requires |s| == 1 && s[0] == ESCAPE
    ensures Reprinted(s) == ""
  {
    assert s[1..] == "";
    assert Parts(s, "", false) == Parts(s[1..], "", true) == [""];
  }

  /** Printing what was parsed gives the same string exactly when its escapes are the needed ones. */
  lemma {:induction false} PrintUndoesParse(s: string)
    ensures JoinEscaped(Parts(s, "", false)) == s <==> Canonical(s)
    decreases |s|
  {
    hide JoinEscaped;
    hide Parts;
    if s == "" {
      NothingReprinted();
    } else if s[0] == ESCAPE {
      if |s| == 1 {
        ReprintedLoneEscape(s);
      } else {
        ReprintedEscape(s);
        PrintUndoesParse(s[2..]);
        assert s == [ESCAPE, s[1]] + s[2..];
        var t := Reprinted(s[2..]);
        if s[1] == ESCAPE || s[1] == SEPARATOR {
          assert (EscapedChar(s[1]) + t)[2..] == t;
        } else {
          assert (EscapedChar(s[1]) + t)[0] == s[1];
        }
      }
    } else {
      if s[0] == SEPARATOR {
        ReprintedSeparator(s);
      } else {
        ReprintedPlain(s);
      }
      PrintUndoesParse(s[1..]);
      var t := Reprinted(s[1..]);
      assert ([s[0]] + t)[1..] == t;
      assert s == [s[0]] + s[1..];
    }
  }

  lemma NothingReprinted()
    ensures Reprinted("") == ""
  {
  }
}
