/**
 Shell quoting, against the shell's own reading of a command: sections 2.2.1 (escape character) and 2.2.2
 (single-quotes) of the Shell Command Language, IEEE Std 1003.1, and splitting at unquoted blanks.
 */
module Quoting {
  import opened Results

  const QUOTE := '\''
  const ESCAPE := '\\'

  // ----- the shell's reading

  predicate Blank(c: char) { c == ' ' || c == '\t' }

  /**
   Characters that stand for themselves wherever they occur. The reader has no rule for any other unquoted character
   (operators, expansions, patterns, comments, double quotes, newlines) and gives up on a command that has one.
   */
  predicate Ordinary(c: char)
  {
    'a' <= c <= 'z' || 'A' <= c <= 'Z' || '0' <= c <= '9' || c == '-' || c == '.' || c == '_' || c == '/' || c == ':'
  }

  /** Where the reader stands: between words, in a word, behind an escape character, or inside single quotes. */
  datatype Mode = Between | Word | Escaped(started: bool) | Quoted

  /** The words read so far, the one being read, and the mode. */
  datatype Reader = Reader(words: seq<string>, word: string, mode: Mode) | GaveUp

  function Feed(r: Reader, c: char): Reader
  {
    if r.GaveUp? then r
    else match r.mode
      case Quoted =>
        if c == QUOTE then r.(mode := Word) else r.(word := r.word + [c])
      case Escaped(started) =>
        if c == '\n' then r.(mode := if started then Word else Between)
        else r.(word := r.word + [c], mode := Word)
      case Between =>
        if Blank(c) then r
        else if c == QUOTE then r.(mode := Quoted)
        else if c == ESCAPE then r.(mode := Escaped(false))
        else if Ordinary(c) then r.(word := [c], mode := Word)
        else GaveUp
      case Word =>
        if Blank(c) then Reader(r.words + [r.word], "", Between)
        else if c == QUOTE then r.(mode := Quoted)
        else if c == ESCAPE then r.(mode := Escaped(true))
        else if Ordinary(c) then r.(word := r.word + [c])
        else GaveUp
  }

  function FeedAll(r: Reader, s: string): Reader
  {
    if s == "" then r else Feed(FeedAll(r, s[..|s| - 1]), s[|s| - 1])
  }

  /** The words of a command, unless a quote is left open or something unquoted has a meaning of its own. */
  function Words(command: string): Option<seq<string>>
  {
    match FeedAll(Reader([], "", Between), CString(command))
    case GaveUp => None
    case Reader(words, word, mode) =>
      if mode == Between then Some(words)
      else if mode == Word then Some(words + [word])
      else None
  }

  /** The command reaches the shell as a C string, so it ends at the first NUL. */
  function CString(s: string): string
  {
    if s == "" then ""
    else
      var front := CString(s[..|s| - 1]);
      if |front| < |s| - 1 || s[|s| - 1] == '\0' then front else s
  }

  // ----- the quoting

  function QuoteChar(c: char): string { if c == QUOTE then "'\\''" else [c] }

  function Inside(s: string): string
  {
    if s == "" then "" else Inside(s[..|s| - 1]) + QuoteChar(s[|s| - 1])
  }

  function ShellQuoted(s: string): string { [QUOTE] + Inside(s) + [QUOTE] }

  /** `shell_quote`, character by character. */
  method ShellQuote(text: string) returns (quoted: string)
    ensures quoted == ShellQuoted(text)
  {
    quoted := [QUOTE];
    for i := 0 to |text|
      invariant quoted == [QUOTE] + Inside(text[..i])
    {
      assert text[..i + 1][..i] == text[..i];
      if text[i] == QUOTE {
        quoted := quoted + "'\\''";
      } else {
        quoted := quoted + [text[i]];
      }
    }
    assert text[..|text|] == text;
    quoted := quoted + [QUOTE];
  }

  // ----- what the shell makes of it

  lemma {:induction false} FeedConcat(r: Reader, s: string, t: string)
    ensures FeedAll(r, s + t) == FeedAll(FeedAll(r, s), t)
  {
    if t == "" {
      assert s + t == s;
    } else {
      FeedConcat(r, s, t[..|t| - 1]);
      assert (s + t)[..|s + t| - 1] == s + t[..|t| - 1];
    }
  }

  lemma FeedOne(r: Reader, c: char)
    ensures FeedAll(r, [c]) == Feed(r, c)
  {
    assert [c][..0] == "";
  }

  /** Inside quotes, one quoted character adds exactly that character and stays inside quotes. */
  lemma FeedQuoteChar(r: Reader, c: char)
    requires r.Reader? && r.mode == Quoted
    ensures FeedAll(r, QuoteChar(c)) == r.(word := r.word + [c])
  {
    if c == QUOTE {
      var s := "'\\''";
      assert s[..3] == "'\\'" && s[..3][..2] == "'\\" && s[..3][..2][..1] == "'" && s[..3][..2][..1][..0] == "";
      assert FeedAll(r, "'") == r.(mode := Word);
      assert FeedAll(r, "'\\") == r.(mode := Escaped(true));
      assert FeedAll(r, "'\\'") == r.(word := r.word + [QUOTE], mode := Word);
    } else {
      FeedOne(r, c);
    }
  }

  lemma {:induction false} FeedInside(r: Reader, s: string)
    requires r.Reader? && r.mode == Quoted
    ensures FeedAll(r, Inside(s)) == r.(word := r.word + s)
  {
    if s == "" {
      assert r.word + s == r.word;
    } else {
      var init, c := s[..|s| - 1], s[|s| - 1];
      var before := r.(word := r.word + init);
      calc {
        FeedAll(r, Inside(s));
        FeedAll(r, Inside(init) + QuoteChar(c));
        { FeedConcat(r, Inside(init), QuoteChar(c)); }
        FeedAll(FeedAll(r, Inside(init)), QuoteChar(c));
        { FeedInside(r, init); }
        FeedAll(before, QuoteChar(c));
        { FeedQuoteChar(before, c); }
        before.(word := before.word + [c]);
        { assert r.word + init + [c] == r.word + s; }
        r.(word := r.word + s);
      }
    }
  }

  /** Wherever a word may start, a quoted text is read as one word equal to the text, whatever the text holds. */
  lemma FeedQuoted(words: seq<string>, s: string)
    ensures FeedAll(Reader(words, "", Between), ShellQuoted(s)) == Reader(words, s, Word)
  {
    var r := Reader(words, "", Between);
    FeedConcat(r, [QUOTE], Inside(s));
    FeedOne(r, QUOTE);
    FeedInside(r.(mode := Quoted), s);
    assert "" + s == s;
    FeedConcat(r, [QUOTE] + Inside(s), [QUOTE]);
    FeedOne(r.(mode := Quoted, word := s), QUOTE);
  }

  // ----- NUL characters

  predicate NulFree(s: string) { '\0' !in s }

  lemma {:induction false} CStringOfNulFree(s: string)
    requires NulFree(s)
    ensures CString(s) == s
  {
    if s != "" {
      CStringOfNulFree(s[..|s| - 1]);
    }
  }

  lemma {:induction false} CStringCuts(a: string, b: string)
    requires NulFree(a)
    ensures CString(a + "\0" + b) == a
  {
    var s := a + "\0" + b;
    if b == "" {
      assert s[..|s| - 1] == a;
      CStringOfNulFree(a);
    } else {
      assert s[..|s| - 1] == a + "\0" + b[..|b| - 1];
      CStringCuts(a, b[..|b| - 1]);
    }
  }

  lemma {:induction false} InsideConcat(a: string, b: string)
    ensures Inside(a + b) == Inside(a) + Inside(b)
  {
    if b == "" {
      assert a + b == a;
    } else {
      var init, c := b[..|b| - 1], b[|b| - 1];
      calc {
        Inside(a + b);
        { assert (a + b)[..|a + b| - 1] == a + init; }
        Inside(a + init) + QuoteChar(c);
        { InsideConcat(a, init); }
        Inside(a) + Inside(init) + QuoteChar(c);
        Inside(a) + (Inside(init) + QuoteChar(c));
        Inside(a) + Inside(b);
      }
    }
  }

  lemma QuotedWithNul(a: string, b: string)
    ensures ShellQuoted(a + "\0" + b) == [QUOTE] + Inside(a) + "\0" + (Inside(b) + [QUOTE])
  {
    calc {
      Inside(a + "\0" + b);
      { InsideConcat(a + "\0", b); }
      Inside(a + "\0") + Inside(b);
      { InsideConcat(a, "\0"); }
      Inside(a) + Inside("\0") + Inside(b);
      { assert "\0"[..0] == "" && Inside("\0") == "\0"; }
      Inside(a) + "\0" + Inside(b);
    }
  }

  lemma {:induction false} InsideNulFree(s: string)
    ensures NulFree(Inside(s)) <==> NulFree(s)
  {
    if s != "" {
      var init, c := s[..|s| - 1], s[|s| - 1];
      InsideNulFree(init);
      assert s == init + [c];
    }
  }

  /** A text can be quoted for the shell if and only if it has no NUL: then it is read as exactly one word, itself. */
  lemma QuotedIsOneWord(s: string)
    ensures Words(ShellQuoted(s)) == Some([s]) <==> NulFree(s)
  {
    InsideNulFree(s);
    if NulFree(s) {
      CStringOfNulFree(ShellQuoted(s));
      FeedQuoted([], s);
      assert [] + [s] == [s];
    } else {
      NulLeavesQuoteOpen(s);
    }
  }

  lemma NulLeavesQuoteOpen(s: string)
    requires !NulFree(s)
    ensures Words(ShellQuoted(s)) == None
  {
    var k := FirstNul(s);
    var a, b := s[..k], s[k + 1..];
    assert s == a + "\0" + b;
    QuotedWithNul(a, b);
    InsideNulFree(a);
    CStringCuts([QUOTE] + Inside(a), Inside(b) + [QUOTE]);
    var r := Reader([], "", Between);
    FeedConcat(r, [QUOTE], Inside(a));
    FeedOne(r, QUOTE);
    FeedInside(r.(mode := Quoted), a);
  }

  function FirstNul(s: string): (k: nat)
    requires !NulFree(s)
    ensures k < |s| && s[k] == '\0' && NulFree(s[..k])
  {
    if s[0] == '\0' then 0
    else
      var k := 1 + FirstNul(s[1..]);
      assert s[..k] == [s[0]] + s[1..][..k - 1];
      k
  }

  // ----- commands

  /** A word the shell takes as it stands. */
  predicate PlainWord(w: string)
  {
    w != "" && forall i :: 0 <= i < |w| ==> Ordinary(w[i])
  }

  /** Words, each with a blank behind it. */
  function Spaced(ws: seq<string>): string
  {
    if ws == [] then "" else Spaced(ws[..|ws| - 1]) + ws[|ws| - 1] + " "
  }

  lemma {:induction false} FeedPlain(words: seq<string>, w: string)
    requires PlainWord(w)
    ensures FeedAll(Reader(words, "", Between), w) == Reader(words, w, Word)
  {
    var r, init, c := Reader(words, "", Between), w[..|w| - 1], w[|w| - 1];
    if init == "" {
      assert w == [c];
    } else {
      FeedPlain(words, init);
      assert init + [c] == w;
    }
  }

  lemma {:induction false} FeedSpaced(words: seq<string>, ws: seq<string>)
    requires forall w <- ws :: PlainWord(w)
    ensures FeedAll(Reader(words, "", Between), Spaced(ws)) == Reader(words + ws, "", Between)
  {
    var r := Reader(words, "", Between);
    if ws == [] {
      assert words + ws == words;
    } else {
      var init, w := ws[..|ws| - 1], ws[|ws| - 1];
      FeedSpaced(words, init);
      FeedConcat(r, Spaced(init), w);
      FeedPlain(words + init, w);
      FeedConcat(r, Spaced(init) + w, " ");
      FeedOne(Reader(words + init, w, Word), ' ');
      assert words + init + [w] == words + ws;
    }
  }

  lemma {:induction false} SpacedNulFree(ws: seq<string>)
    requires forall w <- ws :: PlainWord(w)
    ensures NulFree(Spaced(ws))
  {
    if ws != [] {
      SpacedNulFree(ws[..|ws| - 1]);
      assert PlainWord(ws[|ws| - 1]);
    }
  }

  /** Words with one blank between each two. */
  function Line(ws: seq<string>): string
  {
    if ws == [] then "" else Spaced(ws[..|ws| - 1]) + ws[|ws| - 1]
  }

  /** What follows a quoted text on the command line. */
  function Tail(behind: seq<string>): string { if behind == [] then "" else " " + Line(behind) }

  lemma FeedLine(words: seq<string>, init: seq<string>, last: string)
    requires (forall w <- init :: PlainWord(w)) && PlainWord(last)
    ensures FeedAll(Reader(words, "", Between), Spaced(init) + last) == Reader(words + init, last, Word)
  {
    FeedConcat(Reader(words, "", Between), Spaced(init), last);
    FeedSpaced(words, init);
    FeedPlain(words + init, last);
  }

  lemma FeedTail(words: seq<string>, word: string, behind: seq<string>)
    requires forall w <- behind :: PlainWord(w)
    ensures var r := FeedAll(Reader(words, word, Word), Tail(behind));
            r.Reader? && r.mode == Word && r.words + [r.word] == words + [word] + behind
  {
    if behind == [] {
      assert words + [word] + behind == words + [word];
    } else {
      var r, init, last := Reader(words, word, Word), behind[..|behind| - 1], behind[|behind| - 1];
      var next := words + [word];
      calc {
        FeedAll(r, Tail(behind));
        { FeedConcat(r, " ", Line(behind)); }
        FeedAll(FeedAll(r, " "), Line(behind));
        { FeedOne(r, ' '); }
        FeedAll(Reader(next, "", Between), Spaced(init) + last);
        { FeedLine(next, init, last); }
        Reader(next + init, last, Word);
      }
      assert next + init + [last] == next + behind;
    }
  }

  lemma LineNulFree(ws: seq<string>)
    requires forall w <- ws :: PlainWord(w)
    ensures NulFree(Line(ws))
  {
    if ws != [] {
      SpacedNulFree(ws[..|ws| - 1]);
      assert PlainWord(ws[|ws| - 1]);
    }
  }

  /** From where a word may start: a quoted text, and plain words behind it. */
  lemma QuotedThenPlain(before: string, words: seq<string>, s: string, behind: seq<string>)
    requires NulFree(before) && NulFree(s) && (forall w <- behind :: PlainWord(w))
    requires FeedAll(Reader([], "", Between), before) == Reader(words, "", Between)
    ensures Words(before + ShellQuoted(s) + Tail(behind)) == Some(words + [s] + behind)
  {
    var r := Reader([], "", Between);
    InsideNulFree(s);
    LineNulFree(behind);
    CStringOfNulFree(before + ShellQuoted(s) + Tail(behind));
    FeedConcat(r, before, ShellQuoted(s));
    FeedQuoted(words, s);
    FeedConcat(r, before + ShellQuoted(s), Tail(behind));
    FeedTail(words, s, behind);
  }

  /** The commands the library builds around one quoted argument. */
  datatype Command =
    | Remove(path: string)
    | Uninstall(package: string, keepData: bool)
    | Launch(package: string)
    | ForceStop(package: string)
    | IsRunning(package: string)

  function Argument(c: Command): string { if c.Remove? then c.path else c.package }

  function Front(c: Command): seq<string>
  {
    match c
    case Remove(_) => ["rm", "-f"]
    case Uninstall(_, keepData) => if keepData then ["pm", "uninstall", "-k"] else ["pm", "uninstall"]
    case Launch(_) => ["monkey", "-p"]
    case ForceStop(_) => ["am", "force-stop"]
    case IsRunning(_) => ["pidof"]
  }

  function Back(c: Command): seq<string>
  {
    if c.Launch? then ["-c", "android.intent.category.LAUNCHER", "1"] else []
  }

  /** The command line that is sent. */
  function Text(c: Command): string { Spaced(Front(c)) + ShellQuoted(Argument(c)) + Tail(Back(c)) }

  lemma FrontIsPlain(c: Command)
    ensures forall w <- Front(c) :: PlainWord(w)
  {
    assert PlainWord("rm") && PlainWord("-f") && PlainWord("pm") && PlainWord("uninstall") && PlainWord("-k");
    assert PlainWord("monkey") && PlainWord("-p") && PlainWord("am") && PlainWord("force-stop") && PlainWord("pidof");
  }

  lemma BackIsPlain(c: Command)
    ensures forall w <- Back(c) :: PlainWord(w)
  {
    assert PlainWord("-c") && PlainWord("android.intent.category.LAUNCHER") && PlainWord("1");
  }

  /** The words that the device's shell is to run. */
  function Intended(c: Command): seq<string>
  {
    match c
    case Remove(path) => ["rm", "-f", path]
    case Uninstall(package, keepData) =>
      if keepData then ["pm", "uninstall", "-k", package] else ["pm", "uninstall", package]
    case Launch(package) => ["monkey", "-p", package, "-c", "android.intent.category.LAUNCHER", "1"]
    case ForceStop(package) => ["am", "force-stop", package]
    case IsRunning(package) => ["pidof", package]
  }

  /** Whatever the argument holds, the shell runs the intended command with the argument as one word. */
  lemma CommandReads(c: Command)
    requires NulFree(Argument(c))
    ensures Words(Text(c)) == Some(Intended(c))
  {
    FrontIsPlain(c);
    BackIsPlain(c);
    SpacedNulFree(Front(c));
    FeedSpaced([], Front(c));
    assert [] + Front(c) == Front(c);
    QuotedThenPlain(Spaced(Front(c)), Front(c), Argument(c), Back(c));
    WordsAreIntended(c);
  }

  lemma WordsAreIntended(c: Command)
    ensures Front(c) + [Argument(c)] + Back(c) == Intended(c)
  {
  }

  /** `pm install`: the caller's options go in unquoted, so they must read as words of their own. */
  function InstallText(options: string, remote: string): string
  {
    Spaced(["pm", "install"]) + (if options == "" then "" else options + " ") + ShellQuoted(remote)
  }

  lemma {:induction false} FeedUnderPrefix(ws: seq<string>, r: Reader, s: string)
    ensures FeedAll(Under(ws, r), s) == Under(ws, FeedAll(r, s))
  {
    if s != "" {
      FeedUnderPrefix(ws, r, s[..|s| - 1]);
      var q, c := FeedAll(r, s[..|s| - 1]), s[|s| - 1];
      assert q.Reader? ==> ws + q.words + [q.word] == ws + (q.words + [q.word]);
    }
  }

  /** A reader that had already read `ws`. */
  function Under(ws: seq<string>, r: Reader): Reader
  {
    if r.GaveUp? then r else r.(words := ws + r.words)
  }

  /** Options that read as words on their own are passed on as those words, and the path stays one word. */
  lemma InstallReads(options: string, remote: string, os: seq<string>)
    requires NulFree(options) && NulFree(remote) && Words(options) == Some(os)
    ensures Words(InstallText(options, remote)) == Some(["pm", "install"] + os + [remote])
  {
    var r, base := Reader([], "", Between), ["pm", "install"];
    assert PlainWord("pm") && PlainWord("install");
    SpacedNulFree(base);
    FeedSpaced([], base);
    assert [] + base == base;
    CStringOfNulFree(options);
    var given := if options == "" then "" else options + " ";
    var before := Spaced(base) + given;
    FeedConcat(r, Spaced(base), given);
    FeedOptions(base, options, os);
    QuotedThenPlain(before, base + os, remote, []);
    assert InstallText(options, remote) == before + ShellQuoted(remote) + Tail([]);
    assert base + os + [remote] + [] == base + os + [remote];
  }

  lemma FeedOptions(base: seq<string>, options: string, os: seq<string>)
    requires NulFree(options) && Words(options) == Some(os)
    ensures FeedAll(Reader(base, "", Between), if options == "" then "" else options + " ")
         == Reader(base + os, "", Between)
  {
    CStringOfNulFree(options);
    var r := Reader(base, "", Between);
    var alone := FeedAll(Reader([], "", Between), options);
    FeedUnderPrefix(base, Reader([], "", Between), options);
    assert base + [] == base;
    if options != "" {
      FeedConcat(r, options, " ");
      FeedOne(FeedAll(r, options), ' ');
      if alone.mode == Word {
        assert base + alone.words + [alone.word] == base + os;
      } else {
        BetweenHasNoWord(options);
      }
    }
  }

  /** Between words, no word is being read. */
  lemma {:induction false} BetweenHasNoWord(s: string)
    ensures var r := FeedAll(Reader([], "", Between), s);
            r.Reader? && (r.mode == Between || r.mode == Escaped(false)) ==> r.word == ""
  {
    if s != "" {
      BetweenHasNoWord(s[..|s| - 1]);
    }
  }
}
