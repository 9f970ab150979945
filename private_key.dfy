/**
 * Normalisation of the service-account private key read from the
 * environment (app/lib/google.ts:11, where every escaped newline becomes a real one):
 * every two-character sequence backslash, 'n' becomes one newline, scanning
 * left to right without overlaps.
 */
module PrivateKey {
  import opened Wrappers

  predicate IsEscape(s: string, i: int) {
    0 <= i < |s| - 1 && s[i] == '\\' && s[i + 1] == 'n'
  }

  /** The string holds a literal backslash followed by 'n'. */
  predicate HasEscapedNewline(s: string) {
    exists i :: 0 <= i < |s| && IsEscape(s, i)
  }

  function ReplaceEscapedNewlines(s: string): (r: string)
    ensures |r| <= |s|
    ensures r == [] <==> s == []
    // The rewrite never produces an 'n' at the front that was not there: this
    // keeps a backslash before the rewritten rest from forming a new pair, the
    // step NoEscapedNewlineLeft's induction relies on.
    ensures r != [] ==> (r[0] == 'n' <==> s[0] == 'n')
    decreases |s|
  {
    if |s| >= 2 && s[0] == '\\' && s[1] == 'n' then "\n" + ReplaceEscapedNewlines(s[2..])
    else if s == [] then []
    else [s[0]] + ReplaceEscapedNewlines(s[1..])
  }

  /** The key as handed to the credential: unset stays unset. */
  function NormalizePrivateKey(env: Option<string>): (key: Option<string>)
    ensures key.Some? <==> env.Some?
    ensures key.Some? ==> !HasEscapedNewline(key.value)
  {
    match env
    case None => None
    case Some(s) => NoEscapedNewlineLeft(s); Some(ReplaceEscapedNewlines(s))
  }

  /** After the rewrite no backslash is followed by 'n'. */
  lemma {:induction false} NoEscapedNewlineLeft(s: string)
    ensures !HasEscapedNewline(ReplaceEscapedNewlines(s))
    decreases |s|
  {
    var r := ReplaceEscapedNewlines(s);
    if |s| >= 2 && s[0] == '\\' && s[1] == 'n' {
      var t := ReplaceEscapedNewlines(s[2..]);
      NoEscapedNewlineLeft(s[2..]);
      assert r == "\n" + t;
      forall i | IsEscape(r, i) ensures false {
        if i > 0 { assert IsEscape(t, i - 1); }
      }
    } else if s != [] {
      var t := ReplaceEscapedNewlines(s[1..]);
      NoEscapedNewlineLeft(s[1..]);
      assert r == [s[0]] + t;
      forall i | IsEscape(r, i) ensures false {
        if i > 0 {
          assert IsEscape(t, i - 1);
        }
      }
    }
  }

  /** The rewrite changes the string exactly when it holds an escaped newline. */
  lemma {:induction false} UnchangedIffNoEscape(s: string)
    ensures ReplaceEscapedNewlines(s) == s <==> !HasEscapedNewline(s)
    decreases |s|
  {
    if |s| >= 2 && s[0] == '\\' && s[1] == 'n' {
      assert IsEscape(s, 0);
      assert |ReplaceEscapedNewlines(s)| < |s|;
    } else if s != [] {
      var t := s[1..];
      UnchangedIffNoEscape(t);
      if HasEscapedNewline(s) {
        var i :| 0 <= i < |s| && IsEscape(s, i);
        assert i > 0;
        assert IsEscape(t, i - 1);
      }
      if HasEscapedNewline(t) {
        var i :| 0 <= i < |t| && IsEscape(t, i);
        assert IsEscape(s, i + 1);
      }
    }
  }

  /** A key without any backslash passes through untouched. */
  lemma NoBackslashUnchanged(s: string)
    requires '\\' !in s
    ensures ReplaceEscapedNewlines(s) == s
  {
    UnchangedIffNoEscape(s);
  }
}
