/**
 * The label formatter of frontend/src/App.tsx: a snake_case key becomes a
 * "Title Case" label by `split('_')`, upper-casing the first character of
 * every piece, and `join(' ')`. Only ASCII letters change case.
 */
module Labels {

  /** `toUpperCase` on one ASCII character; every other character is kept. */
  function Upper(c: char): char {
    if 'a' <= c <= 'z' then (c as int - 32) as char else c
  }

  /** `s.split('_')`: the pieces between underscores, empty ones included. */
  function Split(s: string): (parts: seq<string>)
    ensures |parts| >= 1
    decreases |s|
  {
    if s == [] then [[]]
    else
      var rest := Split(s[1..]);
      if s[0] == '_' then [[]] + rest
      else [[s[0]] + rest[0]] + rest[1..]
  }

  /** `parts.join(sep)` on a non-empty list. */
  function Join(parts: seq<string>, sep: char): string
    requires |parts| >= 1
  {
    if |parts| == 1 then parts[0]
    else parts[0] + [sep] + Join(parts[1..], sep)
  }

  /** `word.charAt(0).toUpperCase() + word.slice(1)`. */
  function Capitalize(word: string): (r: string)
    ensures |r| == |word|
    ensures word != [] ==> r[0] == Upper(word[0]) && r[1..] == word[1..]
  {
    if word == [] then [] else [Upper(word[0])] + word[1..]
  }

  function CapitalizeAll(parts: seq<string>): seq<string> {
    seq(|parts|, i requires 0 <= i < |parts| => Capitalize(parts[i]))
  }

  /** `key.split('_').map(capitalize).join(' ')`: one label character per key character. */
  function FormatLabel(key: string): (text: string)
    ensures |text| == |key|
  {
    SplitJoin(key);
    JoinCapitalizedLength(Split(key), ' ', '_');
    Join(CapitalizeAll(Split(key)), ' ')
  }

  /** Capitalising keeps every piece's length, so the joined length does not depend on the separator. */
  lemma {:induction false} JoinCapitalizedLength(parts: seq<string>, sep: char, sep': char)
    requires |parts| >= 1
    ensures |Join(CapitalizeAll(parts), sep)| == |Join(parts, sep')|
    decreases |parts|
  {
    if |parts| > 1 {
      assert CapitalizeAll(parts)[1..] == CapitalizeAll(parts[1..]);
      JoinCapitalizedLength(parts[1..], sep, sep');
    }
  }

  // ---------------------------------------------------------------------
  // Splitting and joining are inverse

  /** No piece holds the separator. */
  predicate NoSeparator(parts: seq<string>) {
    forall i :: 0 <= i < |parts| ==> '_' !in parts[i]
  }

  /** Splitting on `_` and joining with `_` gives the key back, and the pieces hold no `_`. */
  lemma {:induction false} SplitJoin(s: string)
    ensures Join(Split(s), '_') == s
    ensures NoSeparator(Split(s))
    decreases |s|
  {
    if s != [] {
      var rest := Split(s[1..]);
      SplitJoin(s[1..]);
      if s[0] == '_' {
        assert Split(s) == [[]] + rest;
        assert (([[]] + rest)[1..]) == rest;
      } else {
        var parts := [[s[0]] + rest[0]] + rest[1..];
        assert Split(s) == parts;
        if |rest| == 1 {
          assert Join(parts, '_') == [s[0]] + rest[0];
        } else {
          assert parts[1..] == rest[1..];
          assert Join(rest, '_') == rest[0] + ['_'] + Join(rest[1..], '_');
        }
        assert s == [s[0]] + s[1..];
        forall i | 0 <= i < |parts| ensures '_' !in parts[i] {
          if i > 0 { assert parts[i] == rest[i]; }
        }
      }
    }
  }

  /** Splitting a key that starts with a character other than `_` extends the first piece. */
  lemma SplitCons(c: char, t: string)
    requires c != '_'
    ensures Split([c] + t) == [[c] + Split(t)[0]] + Split(t)[1..]
  {
    assert ([c] + t)[1..] == t;
  }

  /** Splitting a key that starts with `_` adds an empty first piece. */
  lemma SplitUnderscore(t: string)
    ensures Split(['_'] + t) == [[]] + Split(t)
  {
    assert (['_'] + t)[1..] == t;
  }

  /** Joining when the first piece is not empty starts with that piece's first character. */
  lemma JoinHead(parts: seq<string>, sep: char)
    requires |parts| >= 1 && parts[0] != []
    ensures Join(parts, sep) == [parts[0][0]] + Join([parts[0][1..]] + parts[1..], sep)
  {
    var w := parts[0];
    var shorter := [w[1..]] + parts[1..];
    assert shorter[1..] == parts[1..];
    if |parts| == 1 {
      assert w == [w[0]] + w[1..];
    } else {
      assert w + [sep] + Join(parts[1..], sep) == [w[0]] + (w[1..] + [sep] + Join(parts[1..], sep));
    }
  }

  /** Joining keys apart on `_` and splitting recovers the pieces. */
  lemma {:induction false} JoinSplit(parts: seq<string>)
    requires |parts| >= 1 && NoSeparator(parts)
    ensures Split(Join(parts, '_')) == parts
    decreases |parts|, |parts[0]|
  {
    if parts[0] == [] {
      if |parts| > 1 {
        assert Join(parts, '_') == ['_'] + Join(parts[1..], '_');
        JoinSplit(parts[1..]);
        SplitUnderscore(Join(parts[1..], '_'));
      }
    } else {
      var w := parts[0];
      var shorter := [w[1..]] + parts[1..];
      assert NoSeparator(shorter) by {
        forall i | 0 <= i < |shorter| ensures '_' !in shorter[i] {
          if i == 0 {
            assert forall c :: c in w[1..] ==> c in w;
          } else {
            assert shorter[i] == parts[i];
          }
        }
      }
      JoinSplit(shorter);
      JoinHead(parts, '_');
      assert w[0] != '_';
      SplitCons(w[0], Join(shorter, '_'));
      assert shorter[1..] == parts[1..];
      assert [w[0]] + w[1..] == w;
    }
  }

  // ---------------------------------------------------------------------
  // What the formatter does to each character

  /**
   * The label written out character by character: `_` becomes a space, a
   * character right after `_` is upper-cased, and so is the first one when
   * `first` holds; every other character is kept.
   */
  function TitleCase(s: string, first: bool): (r: string)
    ensures |r| == |s|
  {
    seq(|s|, i requires 0 <= i < |s| =>
      if s[i] == '_' then ' '
      else if (i == 0 && first) || (i > 0 && s[i - 1] == '_') then Upper(s[i])
      else s[i])
  }

  /** Capitalising a string only touches its first character. */
  lemma CapitalizeAppend(w: string, tail: string)
    ensures Capitalize(w + [' '] + tail) == Capitalize(w) + [' '] + tail
  {
    if w == [] {
      assert Upper(' ') == ' ';
      assert w + [' '] + tail == [' '] + tail;
    } else {
      assert (w + [' '] + tail)[0] == w[0];
      assert (w + [' '] + tail)[1..] == w[1..] + [' '] + tail;
    }
  }

  /** Capitalising the pieces, then joining, only differs from leaving the first piece alone at its first character. */
  lemma JoinCapitalized(parts: seq<string>)
    requires |parts| >= 1
    ensures Join(CapitalizeAll(parts), ' ') == Capitalize(Join([parts[0]] + CapitalizeAll(parts[1..]), ' '))
  {
    var caps := CapitalizeAll(parts);
    var inner := [parts[0]] + CapitalizeAll(parts[1..]);
    if |parts| > 1 {
      var tail := Join(CapitalizeAll(parts[1..]), ' ');
      assert caps[1..] == CapitalizeAll(parts[1..]);
      assert inner[1..] == CapitalizeAll(parts[1..]);
      assert Join(inner, ' ') == parts[0] + [' '] + tail;
      assert Join(caps, ' ') == Capitalize(parts[0]) + [' '] + tail;
      CapitalizeAppend(parts[0], tail);
    } else {
      assert inner == [parts[0]];
    }
  }

  /** Joining when the first piece gains a leading character. */
  lemma JoinConsHead(c: char, w: string, more: seq<string>)
    ensures Join([[c] + w] + more, ' ') == [c] + Join([w] + more, ' ')
  {
    if more != [] {
      assert ([[c] + w] + more)[1..] == more;
      assert ([w] + more)[1..] == more;
    }
  }

  /** A leading character other than `_` is kept as it is. */
  lemma TitleCaseCons(c: char, t: string)
    requires c != '_'
    ensures TitleCase([c] + t, false) == [c] + TitleCase(t, false)
  {
    var s := [c] + t;
    forall i | 0 <= i < |s| ensures TitleCase(s, false)[i] == ([c] + TitleCase(t, false))[i] {
      if i > 0 {
        assert s[i] == t[i - 1];
        assert i > 1 ==> s[i - 1] == t[i - 2];
      }
    }
  }

  /** A leading `_` becomes a space and the character after it is upper-cased. */
  lemma TitleCaseUnderscore(t: string)
    ensures TitleCase(['_'] + t, false) == [' '] + Capitalize(TitleCase(t, false))
  {
    var s := ['_'] + t;
    var r := [' '] + Capitalize(TitleCase(t, false));
    forall i | 0 <= i < |s| ensures TitleCase(s, false)[i] == r[i] {
      if i == 1 {
        assert Upper(' ') == ' ';
      } else if i > 1 {
        assert s[i] == t[i - 1] && s[i - 1] == t[i - 2];
        assert r[i] == Capitalize(TitleCase(t, false))[i - 1] == TitleCase(t, false)[i - 1];
      }
    }
  }

  /** The first piece left alone, the others capitalised, joined with spaces. */
  function InnerJoin(s: string): string {
    Join([Split(s)[0]] + CapitalizeAll(Split(s)[1..]), ' ')
  }

  /** InnerJoin and TitleCase agree after a leading `_` when they agree without it. */
  lemma InnerUnderscoreStep(t: string)
    requires InnerJoin(t) == TitleCase(t, false)
    ensures InnerJoin(['_'] + t) == TitleCase(['_'] + t, false)
  {
    var parts := Split(['_'] + t);
    var rest := Split(t);
    SplitUnderscore(t);
    assert parts[1..] == rest;
    assert ([parts[0]] + CapitalizeAll(rest))[1..] == CapitalizeAll(rest);
    assert InnerJoin(['_'] + t) == [' '] + Join(CapitalizeAll(rest), ' ');
    JoinCapitalized(rest);
    TitleCaseUnderscore(t);
  }

  /** InnerJoin and TitleCase agree after a leading character other than `_` when they agree without it. */
  lemma InnerConsStep(c: char, t: string)
    requires c != '_'
    requires InnerJoin(t) == TitleCase(t, false)
    ensures InnerJoin([c] + t) == TitleCase([c] + t, false)
  {
    var parts := Split([c] + t);
    var rest := Split(t);
    SplitCons(c, t);
    assert parts[1..] == rest[1..];
    JoinConsHead(c, rest[0], CapitalizeAll(rest[1..]));
    TitleCaseCons(c, t);
  }

  /** The pieces after the first, capitalised and joined with the first left alone, spell TitleCase(s, false). */
  lemma {:induction false} InnerTitleCase(s: string)
    ensures InnerJoin(s) == TitleCase(s, false)
    decreases |s|
  {
    if s == [] {
      assert CapitalizeAll(Split(s)[1..]) == [];
    } else {
      var t := s[1..];
      InnerTitleCase(t);
      assert s == [s[0]] + t;
      if s[0] == '_' {
        InnerUnderscoreStep(t);
      } else {
        InnerConsStep(s[0], t);
      }
    }
  }

  /**
   * The formatter, character by character: every `_` becomes a single space,
   * the first character and every character right after `_` are upper-cased,
   * and the rest of each piece is unchanged.
   */
  lemma FormatLabelChars(s: string)
    ensures |FormatLabel(s)| == |s|
    ensures forall i :: 0 <= i < |s| ==>
      FormatLabel(s)[i] == (if s[i] == '_' then ' ' else if i == 0 || s[i - 1] == '_' then Upper(s[i]) else s[i])
  {
    var parts := Split(s);
    JoinCapitalized(parts);
    InnerTitleCase(s);
    assert FormatLabel(s) == Capitalize(TitleCase(s, false));
    if s != [] {
      assert s[0] == '_' ==> Upper(' ') == ' ';
    }
  }

  /**
   * A key made of `_`-free words, such as `plant_distances`, is shown as the
   * same words, each capitalised, separated by single spaces.
   */
  lemma FormatJoinedWords(words: seq<string>)
    requires |words| >= 1 && NoSeparator(words)
    ensures FormatLabel(Join(words, '_')) == Join(CapitalizeAll(words), ' ')
  {
    JoinSplit(words);
  }

  /** The two words of the distances key, and that key spelled out. */
  lemma DistancesKeyWords()
    ensures NoSeparator(["plant", "distances"])
    ensures Join(["plant", "distances"], '_') == "plant_distances"
  {
    assert ["plant", "distances"][1..] == ["distances"];
  }

  /** The two words of the distances key, capitalised and joined with a space. */
  lemma DistancesLabelWords()
    ensures Join(CapitalizeAll(["plant", "distances"]), ' ') == "Plant Distances"
  {
    var caps := ["Plant", "Distances"];
    assert Capitalize("plant") == "Plant";
    assert Capitalize("distances") == "Distances";
    assert CapitalizeAll(["plant", "distances"]) == caps;
    assert caps[1..] == ["Distances"];
    assert Join(caps, ' ') == "Plant" + [' '] + "Distances";
  }

  /** The distances upload slot is labelled "Plant Distances". */
  lemma PlantDistancesLabel()
    ensures FormatLabel("plant_distances") == "Plant Distances"
  {
    DistancesKeyWords();
    FormatJoinedWords(["plant", "distances"]);
    DistancesLabelWords();
  }
}
