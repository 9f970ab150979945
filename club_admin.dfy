/**
 * components/club-admin.tsx: the club list editor. Adding derives the id
 * from the name; removing drops every club with the given id. Both compute
 * the new list from the old one.
 */
module ClubAdmin {
  import opened Clubs

  /** The two input fields of the "Add New Club" form. */
  datatype NewClub = NewClub(name: string, sheetId: string)

  /** The whitespace `\s` matches among ASCII characters: space, tab, line feed, vertical tab, form feed, carriage return. */
  predicate IsSpace(c: char) {
    c == ' ' || c == '\t' || c == '\n' || c == '\r' || c == 11 as char || c == 12 as char
  }

  predicate NoSpace(s: string) {
    forall i :: 0 <= i < |s| ==> !IsSpace(s[i])
  }

  /** `toLowerCase` on ASCII letters. */
  function LowerChar(c: char): (l: char)
    ensures IsSpace(l) <==> IsSpace(c)
    ensures !('A' <= l <= 'Z')
  {
    if 'A' <= c <= 'Z' then (c as int + 32) as char else c
  }

  function Lower(s: string): (l: string)
    ensures |l| == |s|
    ensures forall i :: 0 <= i < |s| ==> l[i] == LowerChar(s[i])
  {
    if s == [] then [] else [LowerChar(s[0])] + Lower(s[1..])
  }

  /**
   * The replacement of every whitespace run by one dash, read left to
   * right: `inRun` says whether the character before `s` was whitespace
   * whose run already gave its dash.
   */
  function DashRuns(s: string, inRun: bool): (d: string)
    ensures |d| <= |s|
    ensures d == [] ==> s == [] || (inRun && IsSpace(s[0]))
  {
    if s == [] then []
    else if IsSpace(s[0]) then (if inRun then "" else "-") + DashRuns(s[1..], true)
    else [s[0]] + DashRuns(s[1..], false)
  }

  /** Each maximal run of whitespace becomes one dash. */
  function Dashed(s: string): (d: string)
    ensures |d| <= |s|
    ensures d == [] <==> s == []
  {
    DashRuns(s, false)
  }

  /** The id `addClub` derives from a club name. */
  function Slug(name: string): (id: string)
    ensures NoSpace(id)
    ensures |id| <= |name|
    ensures id == [] <==> name == []
  {
    DashRunsHasNoSpace(Lower(name), false);
    Dashed(Lower(name))
  }

  /** No whitespace survives the replacement. */
  lemma {:induction false} DashRunsHasNoSpace(s: string, inRun: bool)
    ensures NoSpace(DashRuns(s, inRun))
  {
    if s != [] {
      DashRunsHasNoSpace(s[1..], IsSpace(s[0]));
    }
  }

  /** A name without whitespace keeps its characters. */
  lemma {:induction false} DashedKeepsWords(s: string)
    requires NoSpace(s)
    ensures Dashed(s) == s
  {
    if s != [] {
      DashedKeepsWords(s[1..]);
    }
  }

  /** A whitespace run in front of a word gives one dash, or none when the run was already under way. */
  lemma {:induction false} DashRunsOverRun(w: string, b: string, inRun: bool)
    requires |w| > 0 && forall i :: 0 <= i < |w| ==> IsSpace(w[i])
    ensures DashRuns(w + b, inRun) == (if inRun then "" else "-") + DashRuns(b, true)
  {
    assert (w + b)[0] == w[0];
    assert (w + b)[1..] == w[1..] + b;
    if |w| > 1 {
      DashRunsOverRun(w[1..], b, true);
    } else {
      assert w[1..] + b == b;
    }
  }

  /** After a word, the conversion starts afresh. */
  lemma {:induction false} DashRunsSplit(a: string, t: string, inRun: bool)
    requires a != [] && !IsSpace(a[|a| - 1])
    ensures DashRuns(a + t, inRun) == DashRuns(a, inRun) + DashRuns(t, false)
  {
    assert (a + t)[0] == a[0];
    assert (a + t)[1..] == a[1..] + t;
    if |a| > 1 {
      DashRunsSplit(a[1..], t, IsSpace(a[0]));
    } else {
      assert a[1..] + t == t;
      assert DashRuns(a[1..], IsSpace(a[0])) == [];
    }
  }

  /** A word opening the rest is converted as if from the start. */
  lemma DashRunsAtWord(b: string)
    requires b == [] || !IsSpace(b[0])
    ensures DashRuns(b, true) == DashRuns(b, false)
  {
  }

  /**
   * A maximal whitespace run between `a` and `b` turns into exactly one
   * dash, and the two sides are converted on their own.
   */
  lemma DashedRun(a: string, w: string, b: string)
    requires a == [] || !IsSpace(a[|a| - 1])
    requires |w| > 0 && forall i :: 0 <= i < |w| ==> IsSpace(w[i])
    requires b == [] || !IsSpace(b[0])
    ensures Dashed(a + w + b) == Dashed(a) + "-" + Dashed(b)
  {
    DashRunsOverRun(w, b, false);
    DashRunsAtWord(b);
    if a == [] {
      assert a + w + b == w + b;
    } else {
      assert a + w + b == a + (w + b);
      DashRunsSplit(a, w + b, false);
    }
  }

  /**
   * `addClub`: with both fields filled, one club is appended at the end
   * with the slug of its name as id, duplicates not checked, and the form
   * is cleared; otherwise nothing changes.
   */
  function AddClub(clubs: seq<Club>, newClub: NewClub): (r: (seq<Club>, NewClub))
    ensures newClub.name == "" || newClub.sheetId == "" ==> r == (clubs, newClub)
    ensures newClub.name != "" && newClub.sheetId != "" ==>
      r.0 == clubs + [Club(Slug(newClub.name), newClub.name, newClub.sheetId)] && r.1 == NewClub("", "")
  {
    if newClub.name != "" && newClub.sheetId != "" then
      (clubs + [Club(Slug(newClub.name), newClub.name, newClub.sheetId)], NewClub("", ""))
    else (clubs, newClub)
  }

  /** Adding keeps the earlier clubs in place, grows the list by one, and may repeat an id already listed. */
  lemma AddClubAppendsOne(clubs: seq<Club>, newClub: NewClub)
    requires newClub.name != "" && newClub.sheetId != ""
    ensures var (added, form) := AddClub(clubs, newClub);
      |added| == |clubs| + 1 && added[..|clubs|] == clubs && form == NewClub("", "") &&
      added[|clubs|].name == newClub.name && added[|clubs|].sheetId == newClub.sheetId &&
      NoSpace(added[|clubs|].id) && added[|clubs|].id != "" &&
      (forall i :: 0 <= i < |clubs| && clubs[i].id == Slug(newClub.name) ==> added[i].id == added[|clubs|].id)
  {
    var added := AddClub(clubs, newClub).0;
    assert added[..|clubs|] == clubs;
  }

  /** `removeClub(id)`: the clubs whose id differs, in their order. */
  function RemoveClub(clubs: seq<Club>, id: string): (r: seq<Club>)
    ensures |r| <= |clubs|
    ensures forall c :: c in r <==> c in clubs && c.id != id
  {
    if clubs == [] then []
    else (if clubs[0].id == id then [] else [clubs[0]]) + RemoveClub(clubs[1..], id)
  }

  /** Removal works on each part of the list separately, so the kept clubs stay in their order. */
  lemma {:induction false} RemoveClubConcat(a: seq<Club>, b: seq<Club>, id: string)
    ensures RemoveClub(a + b, id) == RemoveClub(a, id) + RemoveClub(b, id)
  {
    if a != [] {
      assert (a + b)[0] == a[0];
      assert (a + b)[1..] == a[1..] + b;
      RemoveClubConcat(a[1..], b, id);
    } else {
      assert a + b == b;
    }
  }

  /** A list without that id is left as it is. */
  lemma {:induction false} RemoveAbsentId(clubs: seq<Club>, id: string)
    requires forall i :: 0 <= i < |clubs| ==> clubs[i].id != id
    ensures RemoveClub(clubs, id) == clubs
  {
    if clubs != [] {
      RemoveAbsentId(clubs[1..], id);
    }
  }

  /** Removing the same id twice is removing it once. */
  lemma RemoveClubIdempotent(clubs: seq<Club>, id: string)
    ensures RemoveClub(RemoveClub(clubs, id), id) == RemoveClub(clubs, id)
  {
    var r := RemoveClub(clubs, id);
    forall i | 0 <= i < |r|
      ensures r[i].id != id
    {
      assert r[i] in r;
    }
    RemoveAbsentId(r, id);
  }
}
