/** The JavaScript string operations the services use: trim, split, join, startsWith. */
module Text {

  /** The characters `String.prototype.trim` removes. */
  predicate IsSpace(c: char) {
    || '\t' <= c <= '\r'
    || c == ' '
    || c == '\U{00A0}'
    || c == '\U{1680}'
    || '\U{2000}' <= c <= '\U{200A}'
    || c == '\U{2028}'
    || c == '\U{2029}'
    || c == '\U{202F}'
    || c == '\U{205F}'
    || c == '\U{3000}'
    || c == '\U{FEFF}'
  }

  function TrimStart(s: string): string {
    if s != "" && IsSpace(s[0]) then TrimStart(s[1..]) else s
  }

  function TrimEnd(s: string): string {
    if s != "" && IsSpace(s[|s| - 1]) then TrimEnd(s[..|s| - 1]) else s
  }

  function Trim(s: string): string {
    TrimEnd(TrimStart(s))
  }

  /** No white space at either end. */
  predicate Trimmed(s: string) {
    s != "" ==> !IsSpace(s[0]) && !IsSpace(s[|s| - 1])
  }

  lemma {:induction false} TrimStartStops(s: string)
    ensures TrimStart(s) != "" ==> !IsSpace(TrimStart(s)[0])
  {
    if s != "" && IsSpace(s[0]) {
      TrimStartStops(s[1..]);
    }
  }

  lemma {:induction false} TrimEndStops(s: string)
    ensures TrimEnd(s) <= s
    ensures TrimEnd(s) != "" ==> !IsSpace(TrimEnd(s)[|TrimEnd(s)| - 1])
  {
    if s != "" && IsSpace(s[|s| - 1]) {
      TrimEndStops(s[..|s| - 1]);
    }
  }

  /** Trimming yields trimmed text, and leaves trimmed text (and only that) alone. */
  lemma TrimIsProjection(s: string)
    ensures Trimmed(Trim(s))
    ensures Trim(s) == s <==> Trimmed(s)
  {
    TrimStartStops(s);
    TrimEndStops(TrimStart(s));
  }

  lemma TrimTwice(s: string)
    ensures Trim(Trim(s)) == Trim(s)
  {
    TrimIsProjection(s);
    TrimIsProjection(Trim(s));
  }

  /** `value.split(sep)` for a one-character separator: never the empty list. */
  function Split(s: string, sep: char): (parts: seq<string>)
    ensures |parts| >= 1
  {
    if s == "" then [""]
    else
      var rest := Split(s[1..], sep);
      if s[0] == sep then [""] + rest else [[s[0]] + rest[0]] + rest[1..]
  }

  /** `parts.join(glue)`. */
  function Join(parts: seq<string>, glue: string): string {
    if parts == [] then ""
    else if |parts| == 1 then parts[0]
    else parts[0] + glue + Join(parts[1..], glue)
  }

  lemma {:induction false} SplitAtFirst(x: string, sep: char, y: string)
    requires sep !in x
    ensures Split(x, sep) == [x]
    ensures Split(x + [sep] + y, sep) == [x] + Split(y, sep)
  {
    if x == "" {
      assert (x + [sep] + y)[1..] == y;
    } else {
      SplitAtFirst(x[1..], sep, y);
      assert (x + [sep] + y)[1..] == x[1..] + [sep] + y;
      assert [x[0]] + x[1..] == x;
    }
  }

  lemma {:induction false} SplitHasParts(s: string, sep: char)
    requires sep in s
    ensures |Split(s, sep)| > 1
  {
    if s[0] != sep {
      assert s == [s[0]] + s[1..];
      SplitHasParts(s[1..], sep);
    }
  }

  function TrimAll(parts: seq<string>): (trimmed: seq<string>)
    ensures |trimmed| == |parts|
    ensures forall i :: 0 <= i < |parts| ==> trimmed[i] == Trim(parts[i])
  {
    if parts == [] then [] else [Trim(parts[0])] + TrimAll(parts[1..])
  }

  lemma TrimLeadingSpace(s: string)
    ensures Trim(" " + s) == Trim(s)
  {
    assert (" " + s)[1..] == s;
  }

  lemma {:induction false} TrimAllLeadingSpace(s: string, sep: char)
    requires sep != ' '
    ensures TrimAll(Split(" " + s, sep)) == TrimAll(Split(s, sep))
  {
    assert (" " + s)[1..] == s;
    var rest := Split(s, sep);
    TrimLeadingSpace(rest[0]);
    assert Split(" " + s, sep) == [" " + rest[0]] + rest[1..];
  }

  /** What "; " joins, splitting at ';' and trimming takes apart again. */
  lemma {:induction false} SplitUndoesJoin(items: seq<string>, sep: char)
    requires items != [] && sep != ' '
    requires forall i :: 0 <= i < |items| ==> sep !in items[i] && Trimmed(items[i])
    ensures TrimAll(Split(Join(items, [sep, ' ']), sep)) == items
  {
    TrimIsProjection(items[0]);
    if |items| == 1 {
      SplitAtFirst(items[0], sep, "");
    } else {
      var tail := Join(items[1..], [sep, ' ']);
      assert Join(items, [sep, ' ']) == items[0] + [sep] + (" " + tail);
      SplitAtFirst(items[0], sep, " " + tail);
      TrimAllLeadingSpace(tail, sep);
      SplitUndoesJoin(items[1..], sep);
    }
  }
}
