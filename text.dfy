/**
 * Splitting text on one separator character, as Python's `str.split(" ")` does:
 * every separator ends a part, so two separators in a row give an empty part.
 */
module Text {

  /** The parts of `s` between occurrences of `sep`; at least one part, none containing `sep`. */
  function SplitOn(s: string, sep: char): (parts: seq<string>)
    ensures |parts| >= 1
    ensures forall k :: 0 <= k < |parts| ==> sep !in parts[k]
  {
    if s == [] then [""]
    else
      var rest := SplitOn(s[1..], sep);
      if s[0] == sep then [""] + rest else [[s[0]] + rest[0]] + rest[1..]
  }

  /** The parts joined back together with `sep` between neighbours. */
  function Join(parts: seq<string>, sep: char): string
    requires |parts| >= 1
  {
    if |parts| == 1 then parts[0] else parts[0] + [sep] + Join(parts[1..], sep)
  }

  /** Joining the parts of a split restores the text. */
  lemma {:induction false} JoinSplitOn(s: string, sep: char)
    ensures Join(SplitOn(s, sep), sep) == s
  {
    if s != [] {
      var rest := SplitOn(s[1..], sep);
      JoinSplitOn(s[1..], sep);
      if s[0] == sep {
        assert SplitOn(s, sep)[1..] == rest;
      } else {
        var parts := SplitOn(s, sep);
        if |rest| == 1 {
          assert parts == [[s[0]] + rest[0]];
        } else {
          assert parts[1..] == rest[1..];
          assert Join(rest, sep) == rest[0] + [sep] + Join(rest[1..], sep);
        }
      }
    }
  }

  /** Splitting a join of separator-free parts gives the parts back. */
  lemma {:induction false} SplitOnJoin(parts: seq<string>, sep: char)
    requires |parts| >= 1
    requires forall k :: 0 <= k < |parts| ==> sep !in parts[k]
    ensures SplitOn(Join(parts, sep), sep) == parts
  {
    if |parts| == 1 {
      SplitOnSeparatorFree(parts[0], sep);
    } else {
      SplitOnJoin(parts[1..], sep);
      SplitOnPrefix(parts[0], Join(parts[1..], sep), sep);
    }
  }

  lemma {:induction false} SplitOnSeparatorFree(s: string, sep: char)
    requires sep !in s
    ensures SplitOn(s, sep) == [s]
  {
    if s != [] {
      assert sep !in s[1..] by {
        forall c | c in s[1..] ensures c != sep { }
      }
      SplitOnSeparatorFree(s[1..], sep);
      assert s[0] != sep;
      assert [s[0]] + s[1..] == s;
    }
  }

  /** A separator-free word followed by a separator becomes the first part on its own. */
  lemma {:induction false} SplitOnPrefix(word: string, tail: string, sep: char)
    requires sep !in word
    ensures SplitOn(word + [sep] + tail, sep) == [word] + SplitOn(tail, sep)
  {
    if word != [] {
      assert sep !in word[1..] by {
        forall c | c in word[1..] ensures c != sep { }
      }
      SplitOnPrefix(word[1..], tail, sep);
      assert (word + [sep] + tail)[1..] == word[1..] + [sep] + tail;
      assert [word[0]] + word[1..] == word;
    } else {
      assert ([sep] + tail)[1..] == tail;
    }
  }

  /** Two separators in a row leave an empty part between them (never the first part). */
  lemma {:induction false} AdjacentSeparatorsGiveEmptyPart(s: string, sep: char, i: nat)
    requires i + 1 < |s| && s[i] == sep && s[i + 1] == sep
    ensures exists k :: 1 <= k < |SplitOn(s, sep)| && SplitOn(s, sep)[k] == ""
  {
    var parts, rest := SplitOn(s, sep), SplitOn(s[1..], sep);
    if i == 0 {
      assert s[1..] == [sep] + s[2..];
      assert rest[0] == "";
      assert parts[1] == "";
    } else {
      AdjacentSeparatorsGiveEmptyPart(s[1..], sep, i - 1);
      var k :| 1 <= k < |rest| && rest[k] == "";
      if s[0] == sep {
        assert parts[k + 1] == "";
      } else {
        assert parts[k] == "";
      }
    }
  }
}
