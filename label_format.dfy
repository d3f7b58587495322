/** `formatLabel` of the front end: a snake_case label becomes words
    separated by spaces, each with its first character upper-cased. */
module LabelFormat {
  import opened Options
  import Text

  const UnknownLabel: string := "Unknown"

  /** JavaScript `split('_')`: the pieces between underscores, empty pieces
      included, always at least one. */
  function Split(s: string): (parts: seq<string>)
    ensures |parts| == Text.Count(s, '_') + 1
    ensures forall k :: 0 <= k < |parts| ==> '_' !in parts[k]
  {
    if s == [] then [[]]
    else if s[0] == '_' then [[]] + Split(s[1..])
    else
      var rest := Split(s[1..]);
      [[s[0]] + rest[0]] + rest[1..]
  }

  /** JavaScript `join(sep)`. */
  function Join(words: seq<string>, sep: char): string {
    if |words| == 0 then []
    else if |words| == 1 then words[0]
    else words[0] + [sep] + Join(words[1..], sep)
  }

  /** `word.charAt(0).toUpperCase() + word.slice(1)`. */
  function Capitalize(word: string): (r: string)
    ensures |r| == |word|
    ensures word != [] ==> r[0] == Text.Upper(word[0]) && r[1..] == word[1..]
  {
    if word == [] then [] else [Text.Upper(word[0])] + word[1..]
  }

  /** The `map` step over every piece. */
  function CapitalizeAll(words: seq<string>): (r: seq<string>)
    ensures |r| == |words|
    ensures forall k :: 0 <= k < |words| ==> r[k] == Capitalize(words[k])
  {
    if words == [] then [] else [Capitalize(words[0])] + CapitalizeAll(words[1..])
  }

  /** Reference definition, one character at a time: an underscore becomes
      a space, a character that starts a piece is upper-cased, every other
      character is kept. */
  function TitleChar(s: string, i: nat): char
    requires i < |s|
  {
    if s[i] == '_' then ' '
    else if i == 0 || s[i - 1] == '_' then Text.Upper(s[i])
    else s[i]
  }

  function TitleCase(s: string): (r: string)
    ensures |r| == |s|
  {
    seq(|s|, i requires 0 <= i < |s| => TitleChar(s, i))
  }

  /** The label text shown for the analysis result; a missing or empty label
      reads "Unknown". */
  function FormatLabel(raw: Option<string>): (r: string)
    ensures raw.None? || raw.value == [] ==> r == UnknownLabel
    ensures raw.Some? && raw.value != [] ==> r == TitleCase(raw.value)
  {
    if raw.None? || raw.value == [] then UnknownLabel
    else
      PipelineIsTitleCase(raw.value);
      Join(CapitalizeAll(Split(raw.value)), ' ')
  }

  /** Left-to-right form of the reference: `atStart` says whether the next
      character begins a piece. */
  function TitleFrom(s: string, atStart: bool): (r: string)
    ensures |r| == |s|
  {
    if s == [] then []
    else if s[0] == '_' then [' '] + TitleFrom(s[1..], true)
    else [if atStart then Text.Upper(s[0]) else s[0]] + TitleFrom(s[1..], false)
  }

  lemma JoinCons(c: char, w: string, rest: seq<string>, sep: char)
    ensures Join([[c] + w] + rest, sep) == [c] + Join([w] + rest, sep)
  {
    if |rest| > 0 {
      assert ([[c] + w] + rest)[1..] == rest;
      assert ([w] + rest)[1..] == rest;
    }
  }

  /** The split/map/join pipeline, with the first piece capitalised only when
      `atStart`, agrees with TitleFrom. */
  lemma {:induction false} PipelineFrom(s: string, atStart: bool)
    ensures var parts := Split(s);
      Join([if atStart then Capitalize(parts[0]) else parts[0]] + CapitalizeAll(parts[1..]), ' ')
        == TitleFrom(s, atStart)
  {
    if s == [] {
    } else if s[0] == '_' {
      var u := Split(s[1..]);
      assert Split(s) == [[]] + u;
      assert Split(s)[1..] == u;
      PipelineFrom(s[1..], true);
      assert CapitalizeAll(u) == [Capitalize(u[0])] + CapitalizeAll(u[1..]);
      var words := [[]] + CapitalizeAll(u);
      assert words[1..] == CapitalizeAll(u);
    } else {
      var u := Split(s[1..]);
      assert Split(s) == [[s[0]] + u[0]] + u[1..];
      assert Split(s)[1..] == u[1..];
      var c := if atStart then Text.Upper(s[0]) else s[0];
      assert (if atStart then Capitalize([s[0]] + u[0]) else [s[0]] + u[0]) == [c] + u[0];
      JoinCons(c, u[0], CapitalizeAll(u[1..]), ' ');
      PipelineFrom(s[1..], false);
    }
  }

  lemma {:induction false} TitleFromAt(s: string, atStart: bool, i: nat)
    requires i < |s|
    ensures TitleFrom(s, atStart)[i] ==
      if s[i] == '_' then ' '
      else if (if i == 0 then atStart else s[i - 1] == '_') then Text.Upper(s[i])
      else s[i]
  {
    if i > 0 {
      TitleFromAt(s[1..], s[0] == '_', i - 1);
    }
  }

  lemma TitleFromIsTitleCase(s: string)
    ensures TitleFrom(s, true) == TitleCase(s)
  {
    forall i | 0 <= i < |s| ensures TitleFrom(s, true)[i] == TitleCase(s)[i] {
      TitleFromAt(s, true, i);
    }
  }

  /** formatLabel's pipeline computes the reference definition. */
  lemma PipelineIsTitleCase(s: string)
    ensures Join(CapitalizeAll(Split(s)), ' ') == TitleCase(s)
  {
    var parts := Split(s);
    assert CapitalizeAll(parts) == [Capitalize(parts[0])] + CapitalizeAll(parts[1..]);
    PipelineFrom(s, true);
    TitleFromIsTitleCase(s);
  }

  /** JavaScript `split` is undone by joining with the separator, its pieces
      hold no separator, and there is one more piece than separators. */
  lemma {:induction false} SplitJoinRoundTrip(s: string)
    ensures Join(Split(s), '_') == s
    ensures |Split(s)| == Text.Count(s, '_') + 1
    ensures forall k :: 0 <= k < |Split(s)| ==> '_' !in Split(s)[k]
  {
    if s != [] {
      var u := Split(s[1..]);
      SplitJoinRoundTrip(s[1..]);
      if s[0] == '_' {
        assert Split(s) == [[]] + u;
        assert Split(s)[1..] == u;
      } else {
        assert Split(s) == [[s[0]] + u[0]] + u[1..];
        JoinCons(s[0], u[0], u[1..], '_');
        assert [u[0]] + u[1..] == u;
        assert s == [s[0]] + s[1..];
      }
    }
  }

  /** One space in the output for every space and every underscore of the
      input, and no underscore left. */
  lemma {:induction false} TitleFromCounts(s: string, atStart: bool)
    ensures Text.Count(TitleFrom(s, atStart), ' ') == Text.Count(s, ' ') + Text.Count(s, '_')
    ensures Text.Count(TitleFrom(s, atStart), '_') == 0
  {
    if s != [] {
      TitleFromCounts(s[1..], s[0] == '_');
      var r := TitleFrom(s, atStart);
      assert r[1..] == TitleFrom(s[1..], s[0] == '_');
    }
  }

  lemma FormatLabelSpaces(s: string)
    requires s != []
    ensures Text.Count(FormatLabel(Some(s)), ' ') == Text.Count(s, ' ') + Text.Count(s, '_')
    ensures Text.Count(FormatLabel(Some(s)), '_') == 0
  {
    TitleFromIsTitleCase(s);
    TitleFromCounts(s, true);
  }

  /** Formatting an already formatted label changes nothing. */
  lemma FormatLabelIdempotent(raw: Option<string>)
    ensures FormatLabel(Some(FormatLabel(raw))) == FormatLabel(raw)
  {
    var r := FormatLabel(raw);
    if raw.None? || raw.value == [] {
      assert TitleCase(UnknownLabel) == UnknownLabel;
    } else {
      var s := raw.value;
      forall i | 0 <= i < |r| ensures TitleCase(r)[i] == r[i] {
        assert r[i] == TitleChar(s, i);
        if i > 0 {
          assert r[i - 1] == TitleChar(s, i - 1);
        }
        Text.UpperIdempotent(s[i]);
      }
    }
  }

  lemma FormatLabelMissing()
    ensures FormatLabel(None) == "Unknown"
    ensures FormatLabel(Some("")) == "Unknown"
  {
  }

  lemma TrafficLightExample()
    ensures FormatLabel(Some("traffic_light")) == "Traffic Light"
  {
    assert TitleCase("traffic_light") == "Traffic Light";
  }

  lemma StopSignExample()
    ensures FormatLabel(Some("stopSign")) == "StopSign"
  {
    assert TitleCase("stopSign") == "StopSign";
  }

  lemma CatExample()
    ensures FormatLabel(Some("cat")) == "Cat"
  {
    assert TitleCase("cat") == "Cat";
  }

  lemma MockLabelExample()
    ensures FormatLabel(Some("wheat_healthy")) == "Wheat Healthy"
  {
    assert TitleCase("wheat_healthy") == "Wheat Healthy";
  }
}
