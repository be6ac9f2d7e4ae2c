/**
 shellQuote of internal/controller/vm_disks.go against a reader that follows the single- and
 double-quote rules of sections 2.2.2 and 2.2.3 of the POSIX.1-2017 Shell Command Language.
 */
module ShellQuote {
  import opened ApiServer

  function Escape(value: string): string {
    if value == "" then ""
    else (if value[0] == '\'' then "'\"'\"'" else [value[0]]) + Escape(value[1..])
  }

  function Quote(value: string): string {
    "'" + Escape(value) + "'"
  }

  datatype Mode = Between | Plain | InSingle | InDouble

  /** Unquoted characters with a meaning of their own; the reader does not interpret them. */
  predicate Special(c: char) {
    c in "$`\\|&;<>()#*?[]~%!{}\n"
  }

  predicate Blank(c: char) {
    c == ' ' || c == '\t'
  }

  /** The words of a command line; None when it needs more than quoting (or never closes a quote). */
  function Read(s: string, mode: Mode, word: string, words: seq<string>): Option<seq<string>>
    decreases |s|
  {
    if s == "" then
      match mode
      case Between => Some(words)
      case Plain => Some(words + [word])
      case _ => None
    else if s[0] == '\0' then None
    else
      var c, rest := s[0], s[1..];
      match mode
      case InSingle =>
        // 2.2.2: every character up to the next single-quote is literal.
        if c == '\'' then Read(rest, Plain, word, words) else Read(rest, InSingle, word + [c], words)
      case InDouble =>
        // 2.2.3: literal up to the closing quote, except for the characters that start an expansion.
        if c == '"' then Read(rest, Plain, word, words)
        else if c == '$' || c == '`' || c == '\\' then None
        else Read(rest, InDouble, word + [c], words)
      case _ =>
        if Blank(c) then Read(rest, Between, "", if mode.Plain? then words + [word] else words)
        else if c == '\'' then Read(rest, InSingle, if mode.Plain? then word else "", words)
        else if c == '"' then Read(rest, InDouble, if mode.Plain? then word else "", words)
        else if Special(c) then None
        else Read(rest, Plain, (if mode.Plain? then word else "") + [c], words)
  }

  function Words(s: string): Option<seq<string>> {
    Read(s, Between, "", [])
  }

  lemma ReadCons(c: char, rest: string, mode: Mode, word: string, words: seq<string>)
    requires c != '\0' && (mode.InSingle? || mode.InDouble? || mode.Plain?)
    ensures mode.InSingle? && c == '\'' ==> Read([c] + rest, mode, word, words) == Read(rest, Plain, word, words)
    ensures mode.InSingle? && c != '\'' ==> Read([c] + rest, mode, word, words) == Read(rest, InSingle, word + [c], words)
    ensures mode.InDouble? && c == '"' ==> Read([c] + rest, mode, word, words) == Read(rest, Plain, word, words)
    ensures mode.InDouble? && c == '\'' ==> Read([c] + rest, mode, word, words) == Read(rest, InDouble, word + [c], words)
    ensures mode.Plain? && c == '\'' ==> Read([c] + rest, mode, word, words) == Read(rest, InSingle, word, words)
    ensures mode.Plain? && c == '"' ==> Read([c] + rest, mode, word, words) == Read(rest, InDouble, word, words)
  {
    assert ([c] + rest)[1..] == rest;
  }

  /** Inside single quotes, a single-quote is written by leaving them, double-quoting it and coming back. */
  lemma ReadQuoteChar(tail: string, word: string, words: seq<string>)
    ensures Read("'\"'\"'" + tail, InSingle, word, words) == Read(tail, InSingle, word + ['\''], words)
  {
    var s4 := ['\''] + tail;
    var s3 := ['"'] + s4;
    var s2 := ['\''] + s3;
    var s1 := ['"'] + s2;
    assert "'\"'\"'" + tail == ['\''] + s1;
    ReadCons('\'', s1, InSingle, word, words);
    ReadCons('"', s2, Plain, word, words);
    ReadCons('\'', s3, InDouble, word, words);
    ReadCons('"', s4, InDouble, word + ['\''], words);
    ReadCons('\'', tail, Plain, word + ['\''], words);
  }

  /** Inside single quotes an escaped value reads as itself and leaves the reader just after the closing quote. */
  lemma {:induction false} ReadEscaped(value: string, rest: string, word: string, words: seq<string>)
    requires '\0' !in value
    ensures Read(Escape(value) + "'" + rest, InSingle, word, words) == Read(rest, Plain, word + value, words)
  {
    var s := Escape(value) + "'" + rest;
    if value == "" {
      assert s == ['\''] + rest && word + value == word;
      ReadCons('\'', rest, InSingle, word, words);
    } else {
      var tail := Escape(value[1..]) + "'" + rest;
      assert word + value == word + [value[0]] + value[1..];
      ReadEscaped(value[1..], rest, word + [value[0]], words);
      if value[0] == '\'' {
        assert s == "'\"'\"'" + tail;
        ReadQuoteChar(tail, word, words);
      } else {
        assert s == [value[0]] + tail;
        ReadCons(value[0], tail, InSingle, word, words);
      }
    }
  }

  /** The quoted form of a string is one word, equal to the string. */
  lemma QuoteIsOneWord(value: string)
    requires '\0' !in value
    ensures Words(Quote(value)) == Some([value])
  {
    var s := Quote(value);
    assert s[1..] == Escape(value) + "'" + "";
    ReadEscaped(value, "", "", []);
    assert "" + value == value && [] + [value] == [value];
  }

  // ---------------------------------------------------------------- quoted values in the mount script

  /** A character that stands for itself outside quotes; "=" is one, so that an assignment is one word. */
  predicate Ordinary(c: char) {
    c != '\0' && c != '\'' && c != '"' && !Blank(c) && !Special(c)
  }

  lemma {:induction false} ReadOrdinary(plain: string, rest: string, word: string, words: seq<string>)
    requires forall c <- plain :: Ordinary(c)
    ensures Read(plain + rest, Plain, word, words) == Read(rest, Plain, word + plain, words)
  {
    if plain == "" {
      assert plain + rest == rest && word + plain == word;
    } else {
      assert plain[0] in plain && (plain + rest)[1..] == plain[1..] + rest;
      ReadOrdinary(plain[1..], rest, word + [plain[0]], words);
      assert word + [plain[0]] + plain[1..] == word + plain;
    }
  }

  /** A word of the script: plain text, or plain text followed at once by a quoted value, as in device='...'. */
  datatype Word = Word(plain: string, quoted: Option<string>)

  predicate WellFormed(w: Word) {
    && (forall c <- w.plain :: Ordinary(c))
    && (if w.quoted.None? then w.plain != "" else '\0' !in w.quoted.value)
  }

  function Written(w: Word): string {
    w.plain + (if w.quoted.None? then "" else Quote(w.quoted.value))
  }

  function Meaning(w: Word): string {
    w.plain + (if w.quoted.None? then "" else w.quoted.value)
  }

  lemma ReadPlainStart(plain: string, rest: string, words: seq<string>)
    requires plain != "" && forall c <- plain :: Ordinary(c)
    ensures Read(plain + rest, Between, "", words) == Read(rest, Plain, plain, words)
  {
    assert plain[0] in plain && (plain + rest)[1..] == plain[1..] + rest;
    ReadOrdinary(plain[1..], rest, [plain[0]], words);
    assert "" + [plain[0]] == [plain[0]] && [plain[0]] + plain[1..] == plain;
  }

  lemma ReadQuotedStart(value: string, rest: string, words: seq<string>)
    requires '\0' !in value
    ensures Read(Quote(value) + rest, Between, "", words) == Read(rest, Plain, value, words)
  {
    var s := Quote(value) + rest;
    assert s[1..] == Escape(value) + "'" + rest;
    ReadEscaped(value, rest, "", words);
    assert "" + value == value;
  }

  lemma ReadQuotedEnd(word: string, value: string, rest: string, words: seq<string>)
    requires '\0' !in value
    ensures Read(Quote(value) + rest, Plain, word, words) == Read(rest, Plain, word + value, words)
  {
    var tail := Escape(value) + "'" + rest;
    assert Quote(value) + rest == ['\''] + tail;
    ReadCons('\'', tail, Plain, word, words);
    ReadEscaped(value, rest, word, words);
  }

  /** The reader takes a written word in one go and is then inside a word with its meaning. */
  lemma ReadWord(w: Word, rest: string, words: seq<string>)
    requires WellFormed(w)
    ensures Read(Written(w) + rest, Between, "", words) == Read(rest, Plain, Meaning(w), words)
  {
    if w.quoted.None? {
      assert Written(w) + rest == w.plain + rest && Meaning(w) == w.plain;
      ReadPlainStart(w.plain, rest, words);
    } else if w.plain == "" {
      assert Written(w) + rest == Quote(w.quoted.value) + rest && Meaning(w) == w.quoted.value;
      ReadQuotedStart(w.quoted.value, rest, words);
    } else {
      assert Written(w) + rest == w.plain + (Quote(w.quoted.value) + rest);
      ReadPlainStart(w.plain, Quote(w.quoted.value) + rest, words);
      ReadQuotedEnd(w.plain, w.quoted.value, rest, words);
    }
  }

  lemma ReadEnd(word: string, words: seq<string>)
    ensures Read("", Plain, word, words) == Some(words + [word])
  {
  }

  lemma ReadBlank(rest: string, word: string, words: seq<string>)
    ensures Read(" " + rest, Plain, word, words) == Read(rest, Between, "", words + [word])
  {
    assert (" " + rest)[1..] == rest;
  }

  /** An assignment of a quoted value is one word: the name, the equals sign and the value. */
  lemma AssignmentIsOneWord(name: string, value: string)
    requires (forall c <- name :: Ordinary(c)) && '\0' !in value
    ensures Words(name + "=" + Quote(value)) == Some([name + "=" + value])
  {
    var w := Word(name + "=", Some(value));
    forall c | c in w.plain
      ensures Ordinary(c)
    {
      assert c in name || c == '=';
    }
    calc {
      Words(name + "=" + Quote(value));
      { assert Written(w) + "" == name + "=" + Quote(value); }
      Read(Written(w) + "", Between, "", []);
      { ReadWord(w, "", []); }
      Read("", Plain, Meaning(w), []);
      { ReadEnd(Meaning(w), []); }
      Some([] + [Meaning(w)]);
    }
    assert [] + [Meaning(w)] == [name + "=" + value];
  }

  /** Words separated by blanks. */
  function Line(ws: seq<Word>): string {
    if ws == [] then "" else Written(ws[0]) + " " + Line(ws[1..])
  }

  function Meanings(ws: seq<Word>): seq<string> {
    seq(|ws|, i requires 0 <= i < |ws| => Meaning(ws[i]))
  }

  /** A whole line of plain and quoted words, such as the script's chown, is read back word by word. */
  lemma {:induction false} LineReadsBack(ws: seq<Word>, words: seq<string>)
    requires forall w <- ws :: WellFormed(w)
    ensures Read(Line(ws), Between, "", words) == Some(words + Meanings(ws))
  {
    if ws == [] {
      assert words + Meanings(ws) == words;
    } else {
      var w, line := ws[0], Line(ws[1..]);
      assert w in ws && Line(ws) == Written(w) + (" " + line);
      ReadWord(w, " " + line, words);
      ReadBlank(line, Meaning(w), words);
      LineReadsBack(ws[1..], words + [Meaning(w)]);
      assert words + [Meaning(w)] + Meanings(ws[1..]) == words + Meanings(ws);
    }
  }
}
