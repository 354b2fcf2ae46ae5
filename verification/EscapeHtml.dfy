/** Escaping text for an HTML email: five replacements in a row, each over the result of the one before. */
module EscapeHtml {

  function ReplaceAll(s: string, c: char, entity: string): string {
    if s == "" then "" else (if s[0] == c then entity else [s[0]]) + ReplaceAll(s[1..], c, entity)
  }

  function Escape(s: string): string {
    var s1 := ReplaceAll(s, '&', "&amp;");
    var s2 := ReplaceAll(s1, '<', "&lt;");
    var s3 := ReplaceAll(s2, '>', "&gt;");
    var s4 := ReplaceAll(s3, '"', "&quot;");
    ReplaceAll(s4, '\'', "&#39;")
  }

  /** What one character becomes. */
  function Entity(c: char): string {
    match c
    case '&' => "&amp;"
    case '<' => "&lt;"
    case '>' => "&gt;"
    case '"' => "&quot;"
    case '\'' => "&#39;"
    case _ => [c]
  }

  /** All characters replaced at once. */
  function Substitute(s: string): string {
    if s == "" then "" else Entity(s[0]) + Substitute(s[1..])
  }

  lemma {:induction false} ReplaceConcat(s: string, t: string, c: char, entity: string)
    ensures ReplaceAll(s + t, c, entity) == ReplaceAll(s, c, entity) + ReplaceAll(t, c, entity)
  {
    if s == "" {
      assert s + t == t;
    } else {
      assert (s + t)[1..] == s[1..] + t;
      ReplaceConcat(s[1..], t, c, entity);
    }
  }

  lemma {:induction false} ReplaceAbsent(s: string, c: char, entity: string)
    requires c !in s
    ensures ReplaceAll(s, c, entity) == s
  {
    if s != "" {
      assert s == [s[0]] + s[1..];
      ReplaceAbsent(s[1..], c, entity);
    }
  }

  lemma EscapeConcat(s: string, t: string)
    ensures Escape(s + t) == Escape(s) + Escape(t)
  {
    var s1, t1 := ReplaceAll(s, '&', "&amp;"), ReplaceAll(t, '&', "&amp;");
    var s2, t2 := ReplaceAll(s1, '<', "&lt;"), ReplaceAll(t1, '<', "&lt;");
    var s3, t3 := ReplaceAll(s2, '>', "&gt;"), ReplaceAll(t2, '>', "&gt;");
    var s4, t4 := ReplaceAll(s3, '"', "&quot;"), ReplaceAll(t3, '"', "&quot;");
    ReplaceConcat(s, t, '&', "&amp;");
    ReplaceConcat(s1, t1, '<', "&lt;");
    ReplaceConcat(s2, t2, '>', "&gt;");
    ReplaceConcat(s3, t3, '"', "&quot;");
    ReplaceConcat(s4, t4, '\'', "&#39;");
  }

  lemma ReplaceItself(c: char, entity: string)
    ensures ReplaceAll([c], c, entity) == entity
  {
    assert [c][1..] == "";
  }

  /** The replacements after the first leave `s` alone if it holds nothing they look for. */
  lemma LaterReplacements(s: string)
    requires '<' !in s && '>' !in s && '"' !in s && '\'' !in s
    ensures ReplaceAll(ReplaceAll(ReplaceAll(ReplaceAll(s, '<', "&lt;"), '>', "&gt;"), '"', "&quot;"), '\'', "&#39;")
        == s
  {
    ReplaceAbsent(s, '<', "&lt;");
    ReplaceAbsent(s, '>', "&gt;");
    ReplaceAbsent(s, '"', "&quot;");
    ReplaceAbsent(s, '\'', "&#39;");
  }

  lemma EscapeAmpersand()
    ensures Escape("&") == "&amp;"
  {
    ReplaceItself('&', "&amp;");
    LaterReplacements("&amp;");
  }

  lemma LastThree(s: string)
    requires '>' !in s && '"' !in s && '\'' !in s
    ensures ReplaceAll(ReplaceAll(ReplaceAll(s, '>', "&gt;"), '"', "&quot;"), '\'', "&#39;") == s
  {
    ReplaceAbsent(s, '>', "&gt;");
    ReplaceAbsent(s, '"', "&quot;");
    ReplaceAbsent(s, '\'', "&#39;");
  }

  lemma EscapeLess()
    ensures Escape("<") == "&lt;"
  {
    ReplaceAbsent("<", '&', "&amp;");
    ReplaceItself('<', "&lt;");
    LastThree("&lt;");
  }

  lemma EscapeGreater()
    ensures Escape(">") == "&gt;"
  {
    ReplaceAbsent(">", '&', "&amp;");
    ReplaceAbsent(">", '<', "&lt;");
    ReplaceItself('>', "&gt;");
    ReplaceAbsent("&gt;", '"', "&quot;");
    ReplaceAbsent("&gt;", '\'', "&#39;");
  }

  lemma EscapeQuote()
    ensures Escape("\"") == "&quot;"
  {
    ReplaceAbsent("\"", '&', "&amp;");
    ReplaceAbsent("\"", '<', "&lt;");
    ReplaceAbsent("\"", '>', "&gt;");
    ReplaceItself('"', "&quot;");
    ReplaceAbsent("&quot;", '\'', "&#39;");
  }

  lemma EscapeApostrophe()
    ensures Escape("'") == "&#39;"
  {
    ReplaceAbsent("'", '&', "&amp;");
    ReplaceAbsent("'", '<', "&lt;");
    ReplaceAbsent("'", '>', "&gt;");
    ReplaceAbsent("'", '"', "&quot;");
    ReplaceItself('\'', "&#39;");
  }

  lemma EscapeOther(c: char)
    requires c !in {'&', '<', '>', '"', '\''}
    ensures Escape([c]) == [c]
  {
    ReplaceAbsent([c], '&', "&amp;");
    LaterReplacements([c]);
  }

  /** No entity holds a character that a later replacement looks for. */
  lemma EscapeOne(c: char)
    ensures Escape([c]) == Entity(c)
  {
    match c
    case '&' => EscapeAmpersand();
    case '<' => EscapeLess();
    case '>' => EscapeGreater();
    case '"' => EscapeQuote();
    case '\'' => EscapeApostrophe();
    case _ => EscapeOther(c);
  }

  /** The five replacements are one substitution, character by character. */
  lemma {:induction false} EscapeIsSubstitution(s: string)
    ensures Escape(s) == Substitute(s)
  {
    if s != "" {
      assert s == [s[0]] + s[1..];
      EscapeConcat([s[0]], s[1..]);
      EscapeOne(s[0]);
      EscapeIsSubstitution(s[1..]);
    }
  }

  /** The character an escaped text starts with, and how long its entity is. */
  function First(s: string): (char, nat)
    requires s != ""
  {
    if "&amp;" <= s then ('&', 5)
    else if "&lt;" <= s then ('<', 4)
    else if "&gt;" <= s then ('>', 4)
    else if "&quot;" <= s then ('"', 6)
    else if "&#39;" <= s then ('\'', 5)
    else (s[0], 1)
  }

  function Unescape(s: string): string {
    if s == "" then ""
    else
      var (c, n) := First(s);
      [c] + Unescape(s[n..])
  }

  lemma FirstOfEntity(c: char, rest: string)
    ensures First(Entity(c) + rest) == (c, |Entity(c)|)
  {
    var s := Entity(c) + rest;
    assert Entity(c) <= s;
    if c == '&' {
      assert s[1] == 'a';
    } else if c == '<' {
      assert s[1] == 'l';
    } else if c == '>' {
      assert s[1] == 'g';
    } else if c == '"' {
      assert s[1] == 'q';
    } else if c == '\'' {
      assert s[1] == '#';
    } else {
      assert s[0] == c;
    }
  }

  lemma {:induction false} UnescapeUndoesSubstitute(s: string)
    ensures Unescape(Substitute(s)) == s
  {
    if s != "" {
      var rest := Substitute(s[1..]);
      FirstOfEntity(s[0], rest);
      assert (Entity(s[0]) + rest)[|Entity(s[0])|..] == rest;
      UnescapeUndoesSubstitute(s[1..]);
      assert s == [s[0]] + s[1..];
    }
  }

  /** Escaping loses nothing. */
  lemma EscapeIsInjective(s: string, t: string)
    ensures Unescape(Escape(s)) == s
    ensures Escape(s) == Escape(t) ==> s == t
  {
    EscapeIsSubstitution(s);
    EscapeIsSubstitution(t);
    UnescapeUndoesSubstitute(s);
    UnescapeUndoesSubstitute(t);
  }

  predicate StartsEntity(s: string) {
    "&amp;" <= s || "&lt;" <= s || "&gt;" <= s || "&quot;" <= s || "&#39;" <= s
  }

  lemma EntityIsClean(c: char, i: nat)
    requires i < |Entity(c)|
    ensures Entity(c)[i] !in {'<', '>', '"', '\''}
    ensures Entity(c)[i] == '&' ==> i == 0 && StartsEntity(Entity(c))
  {
  }

  lemma {:induction false} NothingRawIn(s: string, i: nat)
    requires i < |Substitute(s)|
    ensures Substitute(s)[i] !in {'<', '>', '"', '\''}
    ensures Substitute(s)[i] == '&' ==> StartsEntity(Substitute(s)[i..])
  {
    var entity, rest := Entity(s[0]), Substitute(s[1..]);
    if i < |entity| {
      EntityIsClean(s[0], i);
      assert (entity + rest)[0..] == entity + rest;
    } else {
      NothingRawIn(s[1..], i - |entity|);
      assert (entity + rest)[i..] == rest[i - |entity|..];
    }
  }

  /** No raw '<', '>' or quote is left, and every '&' begins one of the five entities. */
  lemma NothingRawIsLeft(s: string, i: nat)
    requires i < |Escape(s)|
    ensures Escape(s)[i] !in {'<', '>', '"', '\''}
    ensures Escape(s)[i] == '&' ==> StartsEntity(Escape(s)[i..])
  {
    EscapeIsSubstitution(s);
    NothingRawIn(s, i);
  }
}
