/**
 * Fixture-name formatting: `fixture.name.split('at')`, a case-sensitive split on every
 * occurrence of the two-letter token "at", of which only the first two pieces are shown
 * as the home and away halves. A team name that itself contains "at" is cut too.
 */
module Fixture {
  import opened Wrappers

  /** `s` holds the separator "at" starting at position `i`. */
  predicate SeparatorAt(s: string, i: int)
  {
    0 <= i && i + 1 < |s| && s[i] == 'a' && s[i + 1] == 't'
  }

  /** `s` contains the separator somewhere. */
  ghost predicate HasSeparator(s: string)
  {
    exists i :: SeparatorAt(s, i)
  }

  /** The pieces glued back together with the separator between neighbours. */
  function Join(pieces: seq<string>): string
    requires |pieces| > 0
  {
    if |pieces| == 1 then pieces[0] else pieces[0] + "at" + Join(pieces[1..])
  }

  /** Where the separators of a text with one more character in front lie. */
  lemma HasSeparatorCons(c: char, t: string)
    ensures HasSeparator([c] + t) <==> (c == 'a' && |t| > 0 && t[0] == 't') || HasSeparator(t)
  {
    var s := [c] + t;
    if c == 'a' && |t| > 0 && t[0] == 't' {
      assert SeparatorAt(s, 0);
    }
    if HasSeparator(t) {
      var j :| SeparatorAt(t, j);
      assert SeparatorAt(s, j + 1);
    }
    if HasSeparator(s) {
      var j :| SeparatorAt(s, j);
      if j > 0 {
        assert SeparatorAt(t, j - 1);
      } else {
        assert s[1] == t[0];
      }
    }
  }

  /** Prepending a character to the first piece prepends it to the joined text. */
  lemma JoinConsFirst(c: char, pieces: seq<string>)
    requires |pieces| > 0
    ensures Join([[c] + pieces[0]] + pieces[1..]) == [c] + Join(pieces)
  {
    var glued := [[c] + pieces[0]] + pieces[1..];
    if |pieces| > 1 {
      assert glued[1..] == pieces[1..];
    }
  }

  /**
   * JavaScript's `String.prototype.split` with the string separator "at": the text is cut at
   * every occurrence, scanning left to right, so the pieces joined with "at" give back the
   * text, no piece contains "at", and the first piece is where the text starts.
   */
  function Split(s: string): (pieces: seq<string>)
    ensures |pieces| > 0
    ensures Join(pieces) == s
    ensures forall k :: 0 <= k < |pieces| ==> !HasSeparator(pieces[k])
    ensures pieces[0] <= s
    decreases |s|
  {
    if |s| < 2 then
      assert forall i :: !SeparatorAt(s, i);
      [s]
    else if s[0] == 'a' && s[1] == 't' then
      var rest := Split(s[2..]);
      assert ([""] + rest)[1..] == rest;
      assert s == "at" + s[2..];
      assert !SeparatorAt("", 0);
      [""] + rest
    else
      var rest := Split(s[1..]);
      JoinConsFirst(s[0], rest);
      HasSeparatorCons(s[0], rest[0]);
      assert s == [s[0]] + s[1..];
      var pieces := [[s[0]] + rest[0]] + rest[1..];
      assert forall k :: 1 <= k < |pieces| ==> pieces[k] == rest[k];
      pieces
  }

  /** The home half: `split('at')[0]`, always present. */
  function Home(name: string): string
  {
    Split(name)[0]
  }

  /** The away half: `split('at')[1]`, `undefined` when "at" does not occur. */
  function Away(name: string): Option<string>
  {
    var pieces := Split(name);
    if |pieces| > 1 then Some(pieces[1]) else None
  }

  /** A text without the separator is not cut at all. */
  lemma {:induction false} SplitWithoutSeparator(s: string)
    requires !HasSeparator(s)
    ensures Split(s) == [s]
  {
    if |s| >= 2 {
      assert !SeparatorAt(s, 0);
      NoSeparatorTail(s);
      SplitWithoutSeparator(s[1..]);
    }
  }

  /** Dropping the first character keeps a text separator-free. */
  lemma NoSeparatorTail(s: string)
    requires |s| > 0 && !HasSeparator(s)
    ensures !HasSeparator(s[1..])
  {
    assert s == [s[0]] + s[1..];
    HasSeparatorCons(s[0], s[1..]);
  }

  /**
   * The split is determined by the first occurrence: text `h` without "at", then "at", then `t`,
   * splits into `h` followed by the pieces of `t`.
   */
  lemma {:induction false} SplitAtFirst(h: string, t: string)
    requires !HasSeparator(h)
    ensures Split(h + "at" + t) == [h] + Split(t)
    decreases |h|
  {
    var s := h + "at" + t;
    if h == [] {
      assert s[2..] == t;
    } else {
      assert !SeparatorAt(s, 0) by {
        if |h| >= 2 { assert !SeparatorAt(h, 0); }
      }
      NoSeparatorTail(h);
      assert s[1..] == h[1..] + "at" + t;
      SplitAtFirst(h[1..], t);
      assert [s[0]] + h[1..] == h;
    }
  }

  /**
   * Home is the text before the first "at"; away is the text between the first and the second
   * "at" (or up to the end) and is absent exactly when "at" does not occur; later pieces are dropped.
   */
  lemma HomeAway(name: string)
    ensures Home(name) <= name && !HasSeparator(Home(name))
    ensures Away(name).None? <==> !HasSeparator(name)
    ensures Away(name).None? ==> Home(name) == name
    ensures Away(name).Some? ==>
              && !HasSeparator(Away(name).value)
              && var rest := name[|Home(name)| + 2..];
                 SeparatorAt(name, |Home(name)|)
                 && Away(name).value <= rest
                 && (|Away(name).value| == |rest| || SeparatorAt(rest, |Away(name).value|))
  {
    var pieces := Split(name);
    if |pieces| == 1 {
      assert pieces[0] == name;
    } else {
      var h := pieces[0];
      var tail := Join(pieces[1..]);
      assert name == h + "at" + tail;
      assert SeparatorAt(name, |h|);
      assert name[|h| + 2..] == tail;
      var a := pieces[1];
      if |pieces| > 2 {
        assert pieces[1..][1..] == pieces[2..];
        assert tail == a + "at" + Join(pieces[2..]);
        assert SeparatorAt(tail, |a|);
      }
    }
  }

  /**
   * "Team A at Team B": home "Team A ", away " Team B". The name is a parameter fixed by the
   * requires, rather than a literal argument, so that the solver does not evaluate `Split` on the
   * literal by unfolding it character by character.
   */
  lemma TeamAAtTeamB(name: string)
    requires name == "Team A at Team B"
    ensures Home(name) == "Team A " && Away(name) == Some(" Team B")
  {
    var home, away := "Team A ", " Team B";
    assert Split(away) == [away] by {
      NoSeparatorWithoutT(away);
      SplitWithoutSeparator(away);
    }
    assert Split(name) == [home] + Split(away) by {
      NoSeparatorWithoutT(home);
      TeamAAtTeamBSpelled(name);
      SplitAtFirst(home, away);
    }
  }

  /**
   * A team name containing "at" is cut: "Lens at Watford" shows away " W" and drops "ford". As in
   * `TeamAAtTeamB`, the name is a parameter fixed by the requires so that `Split` is not unfolded on a literal.
   */
  lemma WatfordIsCut(name: string)
    requires name == "Lens at Watford"
    ensures Home(name) == "Lens " && Away(name) == Some(" W")
  {
    var home, away, rest := "Lens ", " W", "ford";
    var tail := away + "at" + rest;
    assert Split(tail) == [away] + Split(rest) by {
      NoSeparatorWithoutT(away);
      SplitAtFirst(away, rest);
    }
    assert Split(name) == [home] + Split(tail) by {
      NoSeparatorWithoutT(home);
      WatfordSpelled(name);
      SplitAtFirst(home, tail);
    }
  }

  /**
   * The fixture names of the two examples, spelled as their pieces. These are separate lemmas taking
   * the name as a parameter so that the character-by-character comparison is proved apart from `Split`.
   */
  lemma TeamAAtTeamBSpelled(name: string)
    requires name == "Team A at Team B"
    ensures name == "Team A " + "at" + " Team B"
  {
  }

  lemma WatfordSpelled(name: string)
    requires name == "Lens at Watford"
    ensures name == "Lens " + "at" + (" W" + "at" + "ford")
  {
  }

  /** A text without the letter 't' holds no separator. */
  lemma NoSeparatorWithoutT(s: string)
    requires 't' !in s
    ensures !HasSeparator(s)
  {
  }
}
