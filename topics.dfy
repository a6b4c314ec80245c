/**
 * MQTT topic handling of the backend: prefix classification and the
 * identifier segment taken with Java's `topic.split("/")[2]`.
 *
 * Java's `String.split` with a one-character separator cuts the string at
 * every separator, then drops the trailing empty strings; a string without
 * any separator comes back as itself (so `""` gives `[""]`).
 */
module Topics {
  import opened Wrappers

  const Slash: char := '/'
  const StatusPrefix: string := "home/status/"
  const AlertPrefix: string := "home/alerts/"

  predicate StartsWith(s: string, prefix: string)
  {
    |prefix| <= |s| && s[..|prefix|] == prefix
  }

  /** Every piece between separators, empty pieces at either end included. */
  function SplitAll(s: string, sep: char): (parts: seq<string>)
    ensures |parts| >= 1
    ensures forall i :: 0 <= i < |parts| ==> sep !in parts[i]
  {
    if s == [] then [[]]
    else
      var rest := SplitAll(s[1..], sep);
      if s[0] == sep then [[]] + rest
      else [[s[0]] + rest[0]] + rest[1..]
  }

  /** The pieces glued back together with the separator between them. */
  function Join(parts: seq<string>, sep: char): string
    requires |parts| >= 1
  {
    if |parts| == 1 then parts[0] else parts[0] + [sep] + Join(parts[1..], sep)
  }

  /** Drops the empty strings at the end of `parts`, and only those. */
  function TrimTrailingEmpty(parts: seq<string>): (r: seq<string>)
    ensures |r| <= |parts| && r == parts[..|r|]
    ensures r != [] ==> r[|r| - 1] != []
    ensures forall i :: |r| <= i < |parts| ==> parts[i] == []
  {
    if parts == [] then []
    else if parts[|parts| - 1] == [] then TrimTrailingEmpty(parts[..|parts| - 1])
    else parts
  }

  /** Java's `s.split(sep)` for a one-character, non-meta separator. */
  function JavaSplit(s: string, sep: char): (parts: seq<string>)
    ensures sep !in s ==> parts == [s]
    ensures forall i :: 0 <= i < |parts| ==> sep !in parts[i]
    ensures sep in s ==>
      && |parts| <= |SplitAll(s, sep)|
      && parts == SplitAll(s, sep)[..|parts|]
      && (parts != [] ==> parts[|parts| - 1] != [])
      && forall i :: |parts| <= i < |SplitAll(s, sep)| ==> SplitAll(s, sep)[i] == []
  {
    if sep !in s then [s] else TrimTrailingEmpty(SplitAll(s, sep))
  }

  /** `topic.split("/")[2]`: None where Java throws ArrayIndexOutOfBoundsException. */
  function ThirdSegment(topic: string): (id: Option<string>)
    ensures id.Some? ==> Slash in topic && Slash !in id.value
  {
    var parts := JavaSplit(topic, Slash);
    if |parts| > 2 then Some(parts[2]) else None
  }

  datatype TopicClass = StatusTopic | AlertTopic | OtherTopic

  /** The `startsWith` chain of `handleMessage`: status prefix first, then alert prefix. */
  function Classify(topic: string): (c: TopicClass)
    ensures c == StatusTopic <==> StartsWith(topic, StatusPrefix)
    ensures c == AlertTopic <==> StartsWith(topic, AlertPrefix)
    ensures c == OtherTopic <==> !StartsWith(topic, StatusPrefix) && !StartsWith(topic, AlertPrefix)
  {
    if StartsWith(topic, StatusPrefix) then StatusTopic
    else if StartsWith(topic, AlertPrefix) then AlertTopic
    else OtherTopic
  }

  /** No topic has both prefixes, so the order of the two tests does not matter. */
  lemma PrefixesExclusive(topic: string)
    ensures !(StartsWith(topic, StatusPrefix) && StartsWith(topic, AlertPrefix))
  {
    if StartsWith(topic, StatusPrefix) {
      assert topic[5] == StatusPrefix[5] == 's';
      assert AlertPrefix[5] == 'a';
    }
  }

  // ---------------------------------------------------------------------------
  // Splitting and joining are inverse to each other

  lemma {:induction false} JoinSplitAll(s: string, sep: char)
    ensures Join(SplitAll(s, sep), sep) == s
  {
    if s != [] {
      var rest := SplitAll(s[1..], sep);
      JoinSplitAll(s[1..], sep);
      if s[0] == sep {
        assert SplitAll(s, sep) == [[]] + rest;
        assert ([[]] + rest)[1..] == rest;
      } else {
        var parts := SplitAll(s, sep);
        assert parts == [[s[0]] + rest[0]] + rest[1..];
        if |rest| == 1 {
          assert Join(parts, sep) == [s[0]] + rest[0];
        } else {
          assert parts[1..] == rest[1..];
          assert Join(rest, sep) == rest[0] + [sep] + Join(rest[1..], sep);
        }
      }
    }
  }

  lemma {:induction false} SplitAllWithoutSep(w: string, sep: char)
    requires sep !in w
    ensures SplitAll(w, sep) == [w]
  {
    if w != [] {
      SplitAllWithoutSep(w[1..], sep);
      assert [w[0]] + w[1..] == w;
    }
  }

  /** Splitting `x + sep + y` splits `x` and `y` independently. */
  lemma {:induction false} SplitAllAround(x: string, sep: char, y: string)
    ensures SplitAll(x + [sep] + y, sep) == SplitAll(x, sep) + SplitAll(y, sep)
  {
    var s := x + [sep] + y;
    if x == [] {
      assert s[1..] == y;
    } else {
      assert s[0] == x[0] && s[1..] == x[1..] + [sep] + y;
      SplitAllAround(x[1..], sep, y);
    }
  }

  lemma {:induction false} SplitAllJoin(parts: seq<string>, sep: char)
    requires |parts| >= 1
    requires forall i :: 0 <= i < |parts| ==> sep !in parts[i]
    ensures SplitAll(Join(parts, sep), sep) == parts
  {
    SplitAllWithoutSep(parts[0], sep);
    if |parts| > 1 {
      SplitAllJoin(parts[1..], sep);
      SplitAllAround(parts[0], sep, Join(parts[1..], sep));
      assert [parts[0]] + parts[1..] == parts;
    }
  }

  // ---------------------------------------------------------------------------
  // The identifier segment of a routed topic

  /** The first piece is the text up to the first separator (or the end). */
  lemma {:induction false} FirstPiece(s: string, sep: char)
    ensures var p := SplitAll(s, sep)[0];
      p <= s && (|p| == |s| || s[|p|] == sep)
  {
    if s != [] && s[0] != sep {
      FirstPiece(s[1..], sep);
    }
  }

  /** Some piece is non-empty exactly when some character is not a separator. */
  lemma {:induction false} SomePieceNonEmpty(s: string, sep: char)
    ensures (exists j :: 0 <= j < |SplitAll(s, sep)| && SplitAll(s, sep)[j] != [])
        <==> (exists i :: 0 <= i < |s| && s[i] != sep)
  {
    if s != [] {
      var rest := SplitAll(s[1..], sep);
      SomePieceNonEmpty(s[1..], sep);
      if s[0] == sep {
        var parts := SplitAll(s, sep);
        assert parts == [[]] + rest;
        if exists j :: 0 <= j < |rest| && rest[j] != [] {
          var j :| 0 <= j < |rest| && rest[j] != [];
          assert parts[j + 1] != [];
        }
        if exists j :: 0 <= j < |parts| && parts[j] != [] {
          var j :| 0 <= j < |parts| && parts[j] != [];
          assert rest[j - 1] != [];
        }
        if exists i :: 0 <= i < |s| && s[i] != sep {
          var i :| 0 <= i < |s| && s[i] != sep;
          assert s[1..][i - 1] != sep;
        }
      } else {
        assert SplitAll(s, sep)[0] != [];
      }
    }
  }

  /** Trimming two non-empty leading pieces plus `pieces` keeps a third entry iff some piece is non-empty. */
  lemma {:induction false} TrimKeepsThird(a: string, b: string, pieces: seq<string>)
    requires a != [] && |pieces| >= 1
    ensures var parts := TrimTrailingEmpty([a, b] + pieces);
      && (|parts| > 2 <==> exists j :: 0 <= j < |pieces| && pieces[j] != [])
      && (|parts| > 2 ==> parts[2] == pieces[0])
  {
    var raw := [a, b] + pieces;
    var parts := TrimTrailingEmpty(raw);
    if |parts| > 2 {
      assert raw[|parts| - 1] == pieces[|parts| - 3];
    } else {
      forall j | 0 <= j < |pieces| ensures pieces[j] == [] {
        assert raw[j + 2] == pieces[j];
      }
    }
  }

  /** A slash-free word followed by a slash is the first piece, the rest splits on its own. */
  lemma SplitAfterWord(word: string, rest: string)
    requires Slash !in word
    ensures SplitAll(word + [Slash] + rest, Slash) == [word] + SplitAll(rest, Slash)
  {
    SplitAllAround(word, Slash, rest);
    SplitAllWithoutSep(word, Slash);
  }

  /** Java's split of `first/second/rest` for two slash-free words. */
  lemma SplitTwoWords(first: string, second: string, rest: string)
    requires Slash !in first && Slash !in second
    ensures JavaSplit(first + [Slash] + second + [Slash] + rest, Slash)
      == TrimTrailingEmpty([first, second] + SplitAll(rest, Slash))
  {
    var tail := second + [Slash] + rest;
    var topic := first + [Slash] + tail;
    assert topic == first + [Slash] + second + [Slash] + rest;
    assert SplitAll(tail, Slash) == [second] + SplitAll(rest, Slash) by {
      SplitAfterWord(second, rest);
    }
    assert SplitAll(topic, Slash) == [first] + SplitAll(tail, Slash) by {
      SplitAfterWord(first, tail);
    }
    assert SplitAll(topic, Slash) == [first, second] + SplitAll(rest, Slash);
    assert topic[|first|] == Slash;
  }

  /** A routed topic is `home`, the class word, then the pieces of what follows the prefix. */
  lemma RoutedSplit(topic: string)
    requires StartsWith(topic, StatusPrefix) || StartsWith(topic, AlertPrefix)
    ensures JavaSplit(topic, Slash)
      == TrimTrailingEmpty(["home", topic[5..11]] + SplitAll(topic[|StatusPrefix|..], Slash))
  {
    var second := topic[5..11];
    var rest := topic[|StatusPrefix|..];
    var head := topic[..|StatusPrefix|];
    assert head == StatusPrefix || head == AlertPrefix;
    assert head[..4] == "home" && head[4] == Slash && head[5..11] == second && head[11] == Slash;
    assert Slash !in second by {
      assert StatusPrefix[5..11] == "status" && AlertPrefix[5..11] == "alerts";
    }
    assert topic == head + rest;
    assert head == "home" + [Slash] + second + [Slash];
    SplitTwoWords("home", second, rest);
  }

  /**
   * For a topic with either routed prefix, `split("/")[2]` exists exactly
   * when something other than slashes follows the prefix, and it is then the
   * text after the prefix up to the next slash: further segments are ignored.
   */
  lemma ThirdSegmentAfterPrefix(topic: string)
    requires StartsWith(topic, StatusPrefix) || StartsWith(topic, AlertPrefix)
    ensures var rest := topic[|StatusPrefix|..];
      && (ThirdSegment(topic).Some? <==> exists i :: 0 <= i < |rest| && rest[i] != Slash)
      && (ThirdSegment(topic).Some? ==>
            var id := ThirdSegment(topic).value;
            Slash !in id && id <= rest && (|id| == |rest| || rest[|id|] == Slash))
  {
    var rest := topic[|StatusPrefix|..];
    RoutedSplit(topic);
    TrimKeepsThird("home", topic[5..11], SplitAll(rest, Slash));
    SomePieceNonEmpty(rest, Slash);
    FirstPiece(rest, Slash);
  }

  /** `home/status/<id>/...` and `home/alerts/<id>/...` carry `<id>` whatever follows. */
  lemma RoutedIdentifier(prefix: string, id: string, more: string)
    requires prefix == StatusPrefix || prefix == AlertPrefix
    requires id != [] && Slash !in id
    ensures ThirdSegment(prefix + id) == Some(id)
    ensures ThirdSegment(prefix + id + [Slash] + more) == Some(id)
  {
    var t1 := prefix + id;
    var t2 := prefix + id + [Slash] + more;
    assert t1[..|prefix|] == prefix && t1[|StatusPrefix|..] == id;
    assert t2[..|prefix|] == prefix && t2[|StatusPrefix|..] == id + [Slash] + more;
    IdentifierAfterPrefix(t1, id);
    IdentifierAfterPrefix(t2, id);
  }

  /** A non-empty slash-free word that runs from the prefix up to a slash or the end is the identifier. */
  lemma IdentifierAfterPrefix(topic: string, id: string)
    requires StartsWith(topic, StatusPrefix) || StartsWith(topic, AlertPrefix)
    requires id != [] && Slash !in id
    requires var rest := topic[|StatusPrefix|..];
      id <= rest && (|id| == |rest| || rest[|id|] == Slash)
    ensures ThirdSegment(topic) == Some(id)
  {
    var rest := topic[|StatusPrefix|..];
    ThirdSegmentAfterPrefix(topic);
    assert rest[0] == id[0] != Slash;
    PrefixWithoutSep(ThirdSegment(topic).value, rest);
  }

  /** A slash-free prefix of `s` that ends at a slash or the end of `s` is `s` up to its first slash. */
  lemma PrefixWithoutSep(p: string, s: string)
    requires p <= s && Slash !in p && (|p| == |s| || s[|p|] == Slash)
    ensures forall q :: q <= s && Slash !in q && (|q| == |s| || s[|q|] == Slash) ==> q == p
  {
    forall q | q <= s && Slash !in q && (|q| == |s| || s[|q|] == Slash) ensures q == p {
      assert |q| == |p| by {
        if |q| < |p| { assert false; }
        if |p| < |q| { assert false; }
      }
    }
  }
}
