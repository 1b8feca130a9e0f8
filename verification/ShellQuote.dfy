/** Quoting of words for a shell, and a reader for the quoting rules of POSIX.1-2017 (Shell Command
    Language, sections 2.2.2 and 2.2.3): single quotes keep every character up to the next single quote,
    double quotes keep every character but `$`, a backquote, a backslash and the double quote. */
module ShellQuote {
  import opened Wrappers

  const ESCAPED_QUOTE := ['\'', '"', '\'', '"', '\'']

  function Escaped(value: string): string {
    if value == "" then ""
    else (if value[0] == '\'' then ESCAPED_QUOTE else [value[0]]) + Escaped(value[1..])
  }

  function ShellQuote(value: string): string {
    "'" + Escaped(value) + "'"
  }

  /** The quoted values, separated by single spaces. */
  function QuotedList(values: seq<string>): string {
    if values == [] then ""
    else if |values| == 1 then ShellQuote(values[0])
    else ShellQuote(values[0]) + " " + QuotedList(values[1..])
  }

  // ---------- the reader ----------

  datatype Mode = Unquoted | Single | Double

  /** `word.None?` is a place between words. */
  datatype Reader = Reader(words: seq<string>, word: Option<string>, mode: Mode)

  const START := Reader([], None, Unquoted)

  /** Characters with a meaning of their own outside quotes (section 2.2), and the backslash, whose
      handling is not modelled. */
  const SPECIAL := {'|', '&', ';', '<', '>', '(', ')', '$', '`', '\\', '*', '?', '[', '#', '~', '=', '%', '\n'}

  const NUL := '\0'

  function Text(word: Option<string>): string {
    if word.Some? then word.value else ""
  }

  function EndWord(r: Reader): Reader {
    if r.word.None? then r else r.(words := r.words + [r.word.value], word := None)
  }

  /** None when the character means something that is not quoting. */
  function Step(r: Reader, c: char): Option<Reader> {
    if c == NUL then None
    else
      match r.mode
      case Unquoted =>
        if c == '\'' then Some(r.(word := Some(Text(r.word)), mode := Single))
        else if c == '"' then Some(r.(word := Some(Text(r.word)), mode := Double))
        else if c == ' ' || c == '\t' then Some(EndWord(r))
        else if c in SPECIAL then None
        else Some(r.(word := Some(Text(r.word) + [c])))
      case Single =>
        if c == '\'' then Some(r.(mode := Unquoted)) else Some(r.(word := Some(Text(r.word) + [c])))
      case Double =>
        if c == '"' then Some(r.(mode := Unquoted))
        else if c == '$' || c == '`' || c == '\\' then None
        else Some(r.(word := Some(Text(r.word) + [c])))
  }

  function ReadFrom(r: Reader, s: string): Option<Reader>
    decreases |s|
  {
    if s == "" then Some(r)
    else
      var next := Step(r, s[0]);
      if next.None? then None else ReadFrom(next.value, s[1..])
  }

  /** The words of a line, if all its quotes are closed. */
  function Words(line: string): Option<seq<string>> {
    var r := ReadFrom(START, line);
    if r.None? || !r.value.mode.Unquoted? then None else Some(EndWord(r.value).words)
  }

  // ---------- the round trip ----------

  lemma {:induction false} ReadAppend(r: Reader, a: string, b: string)
    ensures ReadFrom(r, a + b) ==
              if ReadFrom(r, a).None? then None else ReadFrom(ReadFrom(r, a).value, b)
    decreases |a|
  {
    if a == "" {
      assert a + b == b;
    } else {
      assert (a + b)[1..] == a[1..] + b;
      var next := Step(r, a[0]);
      if next.Some? {
        ReadAppend(next.value, a[1..], b);
      }
    }
  }

  lemma ReadOne(r: Reader, c: char)
    ensures ReadFrom(r, [c]) == Step(r, c)
  {
    assert [c][1..] == "";
  }

  /** Inside single quotes an escaped quote leaves and re-enters them, adding a quote to the word. */
  lemma ReadEscapedQuote(r: Reader)
    requires r.mode.Single? && r.word.Some?
    ensures ReadFrom(r, ESCAPED_QUOTE) == Some(r.(word := Some(r.word.value + "'")))
  {
    var unquoted, double := r.(mode := Unquoted), r.(mode := Double);
    var added := double.(word := Some(r.word.value + "'"));
    assert ESCAPED_QUOTE[1..] == ['"', '\'', '"', '\''];
    assert ESCAPED_QUOTE[1..][1..] == ['\'', '"', '\''];
    assert ESCAPED_QUOTE[1..][1..][1..] == ['"', '\''];
    assert ESCAPED_QUOTE[1..][1..][1..][1..] == ['\''];
    ReadOne(added.(mode := Unquoted), '\'');
    assert Step(r, '\'') == Some(unquoted) && Step(unquoted, '"') == Some(double);
    assert ReadFrom(added, ['"', '\'']) == ReadFrom(added.(mode := Unquoted), ['\'']);
    assert ReadFrom(double, ['\'', '"', '\'']) == ReadFrom(added, ['"', '\'']);
    assert ReadFrom(unquoted, ['"', '\'', '"', '\'']) == ReadFrom(double, ['\'', '"', '\'']);
  }

  lemma {:induction false} ReadEscaped(r: Reader, value: string)
    requires r.mode.Single? && r.word.Some?
    ensures ReadFrom(r, Escaped(value)) ==
              if NUL in value then None else Some(r.(word := Some(r.word.value + value)))
    decreases |value|
  {
    if value == "" {
      assert r.word.value + value == r.word.value;
    } else {
      var c, rest := value[0], value[1..];
      var added := r.(word := Some(r.word.value + [c]));
      if c == '\'' {
        ReadEscapedQuote(r);
        ReadAppend(r, ESCAPED_QUOTE, Escaped(rest));
      } else {
        ReadOne(r, c);
        ReadAppend(r, [c], Escaped(rest));
      }
      assert c != NUL ==> ReadFrom(r, Escaped(value)) == ReadFrom(added, Escaped(rest));
      ReadEscaped(added, rest);
      assert value == [c] + rest;
      assert r.word.value + [c] + rest == r.word.value + value;
    }
  }

  /** A quoted value adds exactly its own characters to the word being read. */
  lemma ReadQuoted(r: Reader, value: string)
    requires r.mode.Unquoted?
    ensures ReadFrom(r, ShellQuote(value)) ==
              if NUL in value then None else Some(r.(word := Some(Text(r.word) + value)))
  {
    var inside := r.(word := Some(Text(r.word)), mode := Single);
    ReadOne(r, '\'');
    ReadEscaped(inside, value);
    assert "'" + Escaped(value) + "'" == ['\''] + (Escaped(value) + ['\'']);
    ReadAppend(r, ['\''], Escaped(value) + ['\'']);
    ReadAppend(inside, Escaped(value), ['\'']);
    ReadOne(inside.(word := Some(Text(r.word) + value)), '\'');
  }

  lemma {:induction false} ReadQuotedList(r: Reader, values: seq<string>)
    requires r.mode.Unquoted? && r.word.None? && values != []
    ensures var end := ReadFrom(r, QuotedList(values));
            if exists v :: v in values && NUL in v then end.None?
            else end.Some? && end.value.mode.Unquoted? && EndWord(end.value).words == r.words + values
    decreases |values|
  {
    var v, rest := values[0], values[1..];
    ReadQuoted(r, v);
    assert Text(r.word) + v == v;
    if rest == [] {
      assert values == [v];
    } else {
      assert values == [v] + rest;
      var word, next := r.(word := Some(v)), r.(words := r.words + [v]);
      assert ShellQuote(v) + " " + QuotedList(rest) == ShellQuote(v) + ([' '] + QuotedList(rest));
      ReadAppend(r, ShellQuote(v), [' '] + QuotedList(rest));
      ReadAppend(word, [' '], QuotedList(rest));
      ReadOne(word, ' ');
      ReadQuotedList(next, rest);
      assert next.words + rest == r.words + values;
    }
  }

  /** A quoted value reads back as one word, the value itself; only NUL cannot be quoted. */
  lemma QuoteRoundTrip(value: string)
    ensures Words(ShellQuote(value)) == if NUL in value then None else Some([value])
  {
    ReadQuoted(START, value);
    assert Text(START.word) + value == value;
    assert START.words + [value] == [value];
  }

  /** A list of quoted values reads back as the list. */
  lemma QuotedListRoundTrip(values: seq<string>)
    ensures Words(QuotedList(values)) == if exists v :: v in values && NUL in v then None else Some(values)
  {
    if values != [] {
      ReadQuotedList(START, values);
      assert [] + values == values;
    }
  }
}
