/**
 How an XSMP client's argument list becomes a command line, and what a shell
 makes of that line. The quoting rules are those of POSIX XCU section 2.2.
 */
module ShellQuoting {
  import opened Sequences
  import opened SessionTypes

  const APOSTROPHE := '\''
  const NUL := '\0'

  // ---------- The command line ----------

  predicate IsAlnum(c: char) {
    'a' <= c <= 'z' || 'A' <= c <= 'Z' || '0' <= c <= '9'
  }

  /** What needs no quotes. `strchr` also finds the terminator of its string, so a NUL counts as safe. */
  predicate IsSafe(c: char) {
    IsAlnum(c) || c == '-' || c == '_' || c == '=' || c == ':' || c == '.' || c == '/' || c == NUL
  }

  predicate AllSafe(s: string) {
    forall i :: 0 <= i < |s| ==> IsSafe(s[i])
  }

  /** A C string ends at its first NUL. */
  function Cut(s: string): (r: string) {
    if s == "" || s[0] == NUL then "" else [s[0]] + Cut(s[1..])
  }

  /** The original writes the literal "'\''", which is three apostrophes. */
  function Escaped(c: char): (r: string) {
    if c == APOSTROPHE then "'''" else [c]
  }

  function EscapeAll(s: string): (r: string) {
    if s == "" then "" else Escaped(s[0]) + EscapeAll(s[1..])
  }

  function Quoted(arg: string): (r: string) {
    if AllSafe(arg) then Cut(arg) else "'" + EscapeAll(arg) + "'"
  }

  function Space(i: nat): (r: string) {
    if i > 0 then " " else ""
  }

  /** The text of the arguments from the `i`th on, a space before each but the first. */
  function TextFrom(args: seq<string>, i: nat): (r: string)
    requires i <= |args|
    decreases |args| - i
  {
    if i == |args| then "" else Space(i) + (Quoted(args[i]) + TextFrom(args, i + 1))
  }

  function Command(args: seq<string>): (r: string) {
    Cut(TextFrom(args, 0))
  }

  method NeedsQuotes(val: string) returns (needed: bool)
    ensures needed == !AllSafe(val)
  {
    needed := false;
    var j := 0;
    while j < |val|
      invariant j <= |val| && forall k :: 0 <= k < j ==> IsSafe(val[k])
    {
      if !IsSafe(val[j]) {
        return true;
      }
      j := j + 1;
    }
  }

  /** The inner loop: one value, quoted if it has to be, at the end of the buffer. */
  method AppendQuoted(str: string, val: string) returns (r: string)
    ensures r == str + Quoted(val)
  {
    var needQuotes := NeedsQuotes(val);
    if !needQuotes {
      return str + Cut(val);
    }
    r := str + "'";
    var left := val;
    while left != ""
      invariant r + EscapeAll(left) == str + "'" + EscapeAll(val)
      decreases |left|
    {
      Regroup(r, Escaped(left[0]), EscapeAll(left[1..]));
      if left[0] == APOSTROPHE {
        r := r + "'''";
      } else {
        r := r + [left[0]];
      }
      left := left[1..];
    }
    assert r == str + "'" + EscapeAll(val);
    r := r + "'";
    assert r == str + ("'" + EscapeAll(val) + "'");
  }

  /** The body of the outer loop. */
  method AppendNext(str: string, vals: seq<string>, i: nat) returns (r: string)
    requires i < |vals|
    ensures r + TextFrom(vals, i + 1) == str + TextFrom(vals, i)
  {
    r := str;
    if i > 0 {
      r := r + " ";
    }
    assert r == str + Space(i);
    r := AppendQuoted(r, vals[i]);
    Regroup(str, Space(i), Quoted(vals[i]) + TextFrom(vals, i + 1));
    Regroup(str + Space(i), Quoted(vals[i]), TextFrom(vals, i + 1));
  }

  /** `prop_to_command`. */
  method PropToCommand(vals: seq<string>) returns (command: string)
    ensures command == Command(vals)
  {
    var str := "";
    var i := 0;
    ghost var whole := TextFrom(vals, 0);
    assert str + whole == whole;
    while i < |vals|
      invariant i <= |vals| && str + TextFrom(vals, i) == whole
    {
      str := AppendNext(str, vals, i);
      i := i + 1;
    }
    assert str == whole by {
      assert TextFrom(vals, i) == "" && str + "" == str;
    }
    command := Cut(str);
  }

  // ---------- What a shell reads ----------

  datatype Mode = Plain | Single | Double

  predicate IsBlank(c: char) {
    c == ' ' || c == '\t'
  }

  /** Unquoted characters that mean more to a shell than themselves. */
  predicate IsSpecial(c: char) {
    || c == '|' || c == '&' || c == ';' || c == '<' || c == '>' || c == '(' || c == ')' || c == '$'
    || c == '`' || c == '*' || c == '?' || c == '[' || c == '#' || c == '~' || c == '\n'
  }

  /** What a backslash escapes between double quotes. */
  predicate IsEscapable(c: char) {
    c == '$' || c == '`' || c == '"' || c == '\\'
  }

  function Begun(word: Option<string>): (w: string) {
    if word.Some? then word.value else ""
  }

  function Join(word: Option<string>, words: Option<seq<string>>): (r: Option<seq<string>>) {
    if words.None? || word.None? then words else Some([word.value] + words.value)
  }

  /** What is left to read, how, the word being read, and the word just completed, if any. */
  datatype Move = Move(rest: string, mode: Mode, word: Option<string>, done: Option<string>)

  function Take(rest: string, mode: Mode, word: Option<string>, c: char): (m: Move) {
    Move(rest, mode, Some(Begun(word) + [c]), None)
  }

  /** One step of reading a text that is not empty; None when it asks for more than words. */
  function Next(text: string, mode: Mode, word: Option<string>): (r: Option<Move>)
    requires text != ""
    ensures r.Some? ==> |r.value.rest| < |text|
  {
    var c, rest := text[0], text[1..];
    match mode
    case Single =>
      if c == APOSTROPHE then Some(Move(rest, Plain, word, None)) else Some(Take(rest, Single, word, c))
    case Plain =>
      if c == APOSTROPHE then Some(Move(rest, Single, Some(Begun(word)), None))
      else if c == '"' then Some(Move(rest, Double, Some(Begun(word)), None))
      else if c == '\\' then
        if rest == "" then None
        else if rest[0] == '\n' then Some(Move(rest[1..], Plain, word, None))
        else Some(Take(rest[1..], Plain, word, rest[0]))
      else if IsBlank(c) then Some(Move(rest, Plain, None, word))
      else if IsSpecial(c) then None
      else Some(Take(rest, Plain, word, c))
    case Double =>
      if c == '"' then Some(Move(rest, Plain, word, None))
      else if c == '$' || c == '`' then None
      else if c == '\\' && rest != "" && rest[0] == '\n' then Some(Move(rest[1..], Double, word, None))
      else if c == '\\' && rest != "" && IsEscapable(rest[0]) then Some(Take(rest[1..], Double, word, rest[0]))
      else Some(Take(rest, Double, word, c))
  }

  /** The words read from `text`, after `word` has been read so far; None also when a quotation is left open. */
  function Words(text: string, mode: Mode, word: Option<string>): (r: Option<seq<string>>)
    decreases |text|
  {
    if text == "" then if mode.Plain? then Join(word, Some([])) else None
    else
      var m := Next(text, mode, word);
      if m.None? then None else Join(m.value.done, Words(m.value.rest, m.value.mode, m.value.word))
  }

  function Split(text: string): (r: Option<seq<string>>) {
    Words(text, Plain, None)
  }

  // ---------- The round trip ----------

  predicate Free(s: string, c: char) {
    forall i :: 0 <= i < |s| ==> s[i] != c
  }

  predicate AllFree(args: seq<string>, c: char) {
    forall k :: 0 <= k < |args| ==> Free(args[k], c)
  }

  function NonEmpty(args: seq<string>): (r: seq<string>) {
    if args == [] then [] else (if args[0] == "" then [] else [args[0]]) + NonEmpty(args[1..])
  }

  /** An empty argument does not begin a word. */
  function Filled(arg: string): (r: Option<string>) {
    if arg == "" then None else Some(arg)
  }

  lemma {:induction false} CutWhole(s: string)
    requires Free(s, NUL)
    ensures Cut(s) == s
  {
    if s != "" {
      CutWhole(s[1..]);
      assert s == [s[0]] + s[1..];
    }
  }

  lemma {:induction false} EscapeNothing(s: string)
    requires Free(s, APOSTROPHE)
    ensures EscapeAll(s) == s
  {
    if s != "" {
      EscapeNothing(s[1..]);
      assert s == [s[0]] + s[1..];
    }
  }

  lemma ReadOne(c: char, rest: string, word: Option<string>)
    requires IsSafe(c) && c != NUL
    ensures Words([c] + rest, Plain, word) == Words(rest, Plain, Some(Begun(word) + [c]))
  {
    var text := [c] + rest;
    assert text[0] == c && text[1..] == rest;
  }

  lemma {:induction false} ReadSafe(s: string, tail: string, word: string)
    requires AllSafe(s) && Free(s, NUL)
    ensures Words(s + tail, Plain, Some(word)) == Words(tail, Plain, Some(word + s))
    decreases |s|
  {
    if s == "" {
      assert s + tail == tail && word + s == word;
    } else {
      assert s + tail == [s[0]] + (s[1..] + tail) && word + [s[0]] + s[1..] == word + s;
      calc {
        Words(s + tail, Plain, Some(word));
        { ReadOne(s[0], s[1..] + tail, Some(word)); }
        Words(s[1..] + tail, Plain, Some(word + [s[0]]));
        { ReadSafe(s[1..], tail, word + [s[0]]); }
        Words(tail, Plain, Some(word + [s[0]] + s[1..]));
      }
    }
  }

  lemma ReadWord(arg: string, tail: string)
    requires AllSafe(arg) && Free(arg, NUL) && arg != ""
    ensures Words(arg + tail, Plain, None) == Words(tail, Plain, Some(arg))
  {
    assert arg + tail == [arg[0]] + (arg[1..] + tail);
    assert "" + [arg[0]] == [arg[0]] && [arg[0]] + arg[1..] == arg;
    calc {
      Words(arg + tail, Plain, None);
      { ReadOne(arg[0], arg[1..] + tail, None); }
      Words(arg[1..] + tail, Plain, Some([arg[0]]));
      { ReadSafe(arg[1..], tail, [arg[0]]); }
      Words(tail, Plain, Some(arg));
    }
  }

  lemma {:induction false} ReadSingle(s: string, tail: string, word: string)
    requires Free(s, APOSTROPHE)
    ensures Words(s + "'" + tail, Single, Some(word)) == Words(tail, Plain, Some(word + s))
    decreases |s|
  {
    var text := s + "'" + tail;
    if s == "" {
      assert text[0] == APOSTROPHE && text[1..] == tail && word + s == word;
    } else {
      assert text[0] == s[0] && text[1..] == s[1..] + "'" + tail;
      ReadSingle(s[1..], tail, word + [s[0]]);
      assert word + [s[0]] + s[1..] == word + s;
    }
  }

  lemma ReadQuoted(arg: string, tail: string)
    requires Free(arg, APOSTROPHE) && Free(arg, NUL)
    ensures Words(Quoted(arg) + tail, Plain, None) == Words(tail, Plain, Filled(arg))
  {
    if !AllSafe(arg) {
      EscapeNothing(arg);
      assert Quoted(arg) == "'" + arg + "'";
      ReadInQuotes(arg, tail);
    } else if arg == "" {
      assert Quoted(arg) + tail == tail;
    } else {
      CutWhole(arg);
      ReadWord(arg, tail);
    }
  }

  lemma ReadInQuotes(arg: string, tail: string)
    requires Free(arg, APOSTROPHE) && arg != ""
    ensures Words("'" + arg + "'" + tail, Plain, None) == Words(tail, Plain, Some(arg))
  {
    assert "'" + arg + "'" + tail == "'" + (arg + "'" + tail) && "" + arg == arg;
    calc {
      Words("'" + (arg + "'" + tail), Plain, None);
      { ReadOpening(arg + "'" + tail); }
      Words(arg + "'" + tail, Single, Some(""));
      { ReadSingle(arg, tail, ""); }
      Words(tail, Plain, Some(arg));
    }
  }

  lemma ReadOpening(rest: string)
    ensures Words("'" + rest, Plain, None) == Words(rest, Single, Some(""))
  {
    var text := "'" + rest;
    assert text[0] == APOSTROPHE && text[1..] == rest;
  }

  /** The text from the `i`th argument on, a space first unless `i` is 0, reads back as those arguments. */
  lemma {:induction false} ReadFrom(args: seq<string>, i: nat, word: Option<string>)
    requires i <= |args| && AllFree(args, APOSTROPHE) && AllFree(args, NUL) && (i == 0 ==> word == None)
    ensures Words(TextFrom(args, i), Plain, word) == Join(word, Some(NonEmpty(args[i..])))
    decreases |args| - i
  {
    if i == |args| {
      ReadEnd(args, word);
    } else {
      ReadFrom(args, i + 1, Filled(args[i]));
      ReadNext(args, i, word);
    }
  }

  lemma ReadEnd(args: seq<string>, word: Option<string>)
    ensures Words(TextFrom(args, |args|), Plain, word) == Join(word, Some(NonEmpty(args[|args|..])))
  {
    assert args[|args|..] == [];
  }

  lemma ReadNext(args: seq<string>, i: nat, word: Option<string>)
    requires i < |args| && Free(args[i], APOSTROPHE) && Free(args[i], NUL) && (i == 0 ==> word == None)
    requires Words(TextFrom(args, i + 1), Plain, Filled(args[i]))
          == Join(Filled(args[i]), Some(NonEmpty(args[i + 1..])))
    ensures Words(TextFrom(args, i), Plain, word) == Join(word, Some(NonEmpty(args[i..])))
  {
    NonEmptyNext(args, i);
    ReadStep(i, args[i], TextFrom(args, i + 1), word, NonEmpty(args[i + 1..]));
  }

  lemma ReadStep(i: nat, arg: string, tail: string, word: Option<string>, rest: seq<string>)
    requires Free(arg, APOSTROPHE) && Free(arg, NUL) && (i == 0 ==> word == None)
    requires Words(tail, Plain, Filled(arg)) == Join(Filled(arg), Some(rest))
    ensures Words(Space(i) + (Quoted(arg) + tail), Plain, word) == Join(word, Join(Filled(arg), Some(rest)))
  {
    ReadSpace(i, Quoted(arg) + tail, word);
    ReadQuoted(arg, tail);
  }

  lemma ReadSpace(i: nat, rest: string, word: Option<string>)
    requires i == 0 ==> word == None
    ensures Words(Space(i) + rest, Plain, word) == Join(word, Words(rest, Plain, None))
  {
    var text := Space(i) + rest;
    if i == 0 {
      assert text == rest;
    } else {
      assert text[0] == ' ' && text[1..] == rest;
    }
  }

  lemma NonEmptyNext(args: seq<string>, i: nat)
    requires i < |args|
    ensures Join(Filled(args[i]), Some(NonEmpty(args[i + 1..]))) == Some(NonEmpty(args[i..]))
  {
    assert args[i..][0] == args[i] && args[i..][1..] == args[i + 1..];
    assert [] + NonEmpty(args[i + 1..]) == NonEmpty(args[i + 1..]);
  }

  lemma {:induction false} TextFree(args: seq<string>, i: nat)
    requires i <= |args| && AllFree(args, APOSTROPHE) && AllFree(args, NUL)
    ensures Free(TextFrom(args, i), NUL)
    decreases |args| - i
  {
    if i == |args| {
      TextEndFree(args);
    } else {
      TextFree(args, i + 1);
      TextNextFree(args, i);
    }
  }

  lemma TextEndFree(args: seq<string>)
    ensures Free(TextFrom(args, |args|), NUL)
  {
  }

  lemma TextNextFree(args: seq<string>, i: nat)
    requires i < |args| && AllFree(args, APOSTROPHE) && AllFree(args, NUL) && Free(TextFrom(args, i + 1), NUL)
    ensures Free(TextFrom(args, i), NUL)
  {
    JoinFree(i, args[i], TextFrom(args, i + 1));
  }

  lemma JoinFree(i: nat, arg: string, tail: string)
    requires Free(arg, APOSTROPHE) && Free(arg, NUL) && Free(tail, NUL)
    ensures Free(Space(i) + (Quoted(arg) + tail), NUL)
  {
    QuotedFree(arg);
    FreeAppend(Quoted(arg), tail, NUL);
    FreeAppend(Space(i), Quoted(arg) + tail, NUL);
  }

  lemma FreeAppend(s: string, t: string, c: char)
    requires Free(s, c) && Free(t, c)
    ensures Free(s + t, c)
  {
  }

  lemma QuotedFree(arg: string)
    requires Free(arg, APOSTROPHE) && Free(arg, NUL)
    ensures Free(Quoted(arg), NUL)
  {
    CutWhole(arg);
    EscapeNothing(arg);
  }

  /** Without apostrophes and NULs the shell reads the arguments back, except that empty ones vanish. */
  lemma SplitsBack(args: seq<string>)
    requires AllFree(args, APOSTROPHE) && AllFree(args, NUL)
    ensures Split(Command(args)) == Some(NonEmpty(args))
  {
    ReadFrom(args, 0, None);
    assert args[0..] == args;
    TextFree(args, 0);
    CutWhole(TextFrom(args, 0));
  }

  /** A single argument is left as it is exactly when it needs no quotes: letters, digits and `-_=:./`. */
  lemma PlainStays(arg: string)
    requires Free(arg, NUL)
    ensures (forall i :: 0 <= i < |arg| ==> IsAlnum(arg[i]) || arg[i] in "-_=:./") <==> Quoted(arg) == arg
  {
    assert forall c :: c in "-_=:./" <==> c == '-' || c == '_' || c == '=' || c == ':' || c == '.' || c == '/';
    CutWhole(arg);
    EscapeGrows(arg);
  }

  lemma {:induction false} EscapeGrows(s: string)
    ensures |EscapeAll(s)| >= |s|
  {
    if s != "" {
      EscapeGrows(s[1..]);
    }
  }

  // ---------- No other list is read back ----------

  /** Backslashes and double quotes: the only ways to get an apostrophe into a word. */
  function Mark(c: char): (n: nat) {
    if c == '\\' || c == '"' then 1 else 0
  }

  function Marks(s: string): (n: nat) {
    if s == "" then 0 else Mark(s[0]) + Marks(s[1..])
  }

  function MarksIn(args: seq<string>): (n: nat) {
    if args == [] then 0 else Marks(args[0]) + MarksIn(args[1..])
  }

  lemma {:induction false} MarksAppend(s: string, t: string)
    ensures Marks(s + t) == Marks(s) + Marks(t)
  {
    if s == "" {
      assert s + t == t;
    } else {
      assert (s + t)[1..] == s[1..] + t;
      MarksAppend(s[1..], t);
    }
  }

  lemma TakeCost(word: Option<string>, c: char)
    ensures Marks(Begun(word) + [c]) == Marks(Begun(word)) + Mark(c)
    ensures Free(Begun(word), APOSTROPHE) && c != APOSTROPHE ==> Free(Begun(word) + [c], APOSTROPHE)
  {
    MarksAppend(Begun(word), [c]);
    assert [c][1..] == "";
  }

  /** A step creates no mark, and gets an apostrophe into a word only at the cost of one. */
  predicate Costs(text: string, mode: Mode, word: Option<string>, m: Move) {
    var had, has := Marks(text) + Marks(Begun(word)), Marks(Begun(m.done)) + Marks(m.rest) + Marks(Begun(m.word));
    && has <= had
    && (mode != Double && Free(Begun(word), APOSTROPHE) ==>
          has < had || (m.mode != Double && Free(Begun(m.done), APOSTROPHE) && Free(Begun(m.word), APOSTROPHE)))
  }

  lemma NextCost(text: string, mode: Mode, word: Option<string>)
    requires text != "" && Next(text, mode, word).Some?
    ensures Costs(text, mode, word, Next(text, mode, word).value)
  {
    match mode
    case Single => SingleCost(text, word);
    case Plain => PlainCost(text, word);
    case Double => DoubleCost(text, word);
  }

  lemma SingleCost(text: string, word: Option<string>)
    requires text != "" && Next(text, Single, word).Some?
    ensures Costs(text, Single, word, Next(text, Single, word).value)
  {
    var c, rest := text[0], text[1..];
    assert Marks(text) == Mark(c) + Marks(rest);
    TakeCost(word, c);
  }

  lemma PlainCost(text: string, word: Option<string>)
    requires text != "" && Next(text, Plain, word).Some?
    ensures Costs(text, Plain, word, Next(text, Plain, word).value)
  {
    var c, rest := text[0], text[1..];
    assert Marks(text) == Mark(c) + Marks(rest);
    if c == '\\' {
      assert Marks(rest) == Mark(rest[0]) + Marks(rest[1..]);
      TakeCost(word, rest[0]);
    } else {
      TakeCost(word, c);
    }
  }

  lemma DoubleCost(text: string, word: Option<string>)
    requires text != "" && Next(text, Double, word).Some?
    ensures Costs(text, Double, word, Next(text, Double, word).value)
  {
    var c, rest := text[0], text[1..];
    assert Marks(text) == Mark(c) + Marks(rest);
    TakeCost(word, c);
    if c == '\\' && rest != "" {
      assert Marks(rest) == Mark(rest[0]) + Marks(rest[1..]);
      TakeCost(word, rest[0]);
    }
  }

  lemma {:induction false} ReadingCost(text: string, mode: Mode, word: Option<string>)
    requires Words(text, mode, word).Some?
    ensures var ws, had := Words(text, mode, word).value, Marks(text) + Marks(Begun(word));
      && MarksIn(ws) <= had
      && (mode != Double && Free(Begun(word), APOSTROPHE) ==> MarksIn(ws) < had || AllFree(ws, APOSTROPHE))
    decreases |text|
  {
    if text != "" {
      var m := Next(text, mode, word).value;
      NextCost(text, mode, word);
      ReadingCost(m.rest, m.mode, m.word);
    }
  }

  lemma NextFree(text: string, mode: Mode, word: Option<string>, c: char)
    requires text != "" && Next(text, mode, word).Some? && Free(text, c) && Free(Begun(word), c)
    ensures var m := Next(text, mode, word).value;
      Free(m.rest, c) && Free(Begun(m.word), c) && Free(Begun(m.done), c)
  {
  }

  /** Reading invents no character. */
  lemma {:induction false} ReadingFree(text: string, mode: Mode, word: Option<string>, c: char)
    requires Words(text, mode, word).Some? && Free(text, c) && Free(Begun(word), c)
    ensures AllFree(Words(text, mode, word).value, c)
    decreases |text|
  {
    if text != "" {
      var m := Next(text, mode, word).value;
      NextFree(text, mode, word, c);
      ReadingFree(m.rest, m.mode, m.word, c);
    }
  }

  lemma {:induction false} CutCost(s: string)
    ensures Marks(Cut(s)) <= Marks(s) && Free(Cut(s), NUL)
  {
    if s != "" && s[0] != NUL {
      CutCost(s[1..]);
    }
  }

  lemma {:induction false} EscapeCost(s: string)
    ensures Marks(EscapeAll(s)) == Marks(s)
  {
    if s != "" {
      EscapeCost(s[1..]);
      MarksAppend(Escaped(s[0]), EscapeAll(s[1..]));
      assert s == [s[0]] + s[1..];
      MarksOfEscaped(s[0]);
      MarksAppend([s[0]], s[1..]);
    }
  }

  lemma MarksOfEscaped(c: char)
    ensures Marks(Escaped(c)) == Marks([c])
  {
    if c == APOSTROPHE {
      assert "'''"[1..] == "''" && "''"[1..] == "'" && "'"[1..] == "";
    }
  }

  lemma QuotedCost(arg: string)
    ensures Marks(Quoted(arg)) <= Marks(arg)
  {
    CutCost(arg);
    EscapeCost(arg);
    MarksAppend("'" + EscapeAll(arg), "'");
    MarksAppend("'", EscapeAll(arg));
  }

  lemma {:induction false} TextCost(args: seq<string>, i: nat)
    requires i <= |args|
    ensures Marks(TextFrom(args, i)) <= MarksIn(args[i..])
    decreases |args| - i
  {
    if i < |args| {
      var tail := TextFrom(args, i + 1);
      TextCost(args, i + 1);
      QuotedCost(args[i]);
      MarksAppend(Quoted(args[i]), tail);
      MarksAppend(Space(i), Quoted(args[i]) + tail);
      assert args[i..][1..] == args[i + 1..];
    }
  }

  lemma {:induction false} NonEmptyKeeps(args: seq<string>)
    ensures |NonEmpty(args)| <= |args|
    ensures NonEmpty(args) == args <==> forall k :: 0 <= k < |args| ==> args[k] != ""
  {
    if args != [] {
      NonEmptyKeeps(args[1..]);
      assert args == [args[0]] + args[1..];
    }
  }

  /** For every argument list: the shell reads it back exactly when no argument is empty or holds an
      apostrophe or a NUL. */
  lemma RoundTripIff(args: seq<string>)
    ensures Split(Command(args)) == Some(args)
       <==> (forall k :: 0 <= k < |args| ==> args[k] != "" && Free(args[k], APOSTROPHE) && Free(args[k], NUL))
  {
    if Split(Command(args)) == Some(args) {
      CutCost(TextFrom(args, 0));
      TextCost(args, 0);
      assert args[0..] == args;
      ReadingCost(Command(args), Plain, None);
      assert AllFree(args, APOSTROPHE);
      ReadingFree(Command(args), Plain, None, NUL);
      assert AllFree(args, NUL);
    }
    if AllFree(args, APOSTROPHE) && AllFree(args, NUL) {
      SplitsBack(args);
      NonEmptyKeeps(args);
    }
  }

  /** A lone apostrophe becomes five of them, which leave a quotation open. */
  lemma ApostropheUnbalanced()
    ensures Command(["'"]) == "'''''" && Split("'''''") == None
  {
    ApostropheText();
    CutWhole("'''''");
    FiveUnbalanced();
  }

  lemma ApostropheText()
    ensures TextFrom(["'"], 0) == "'''''"
  {
    assert !AllSafe("'") by {
      assert !IsSafe("'"[0]);
    }
    assert "'"[1..] == "";
    assert EscapeAll("'") == "'''" + "";
    assert Quoted("'") == "'''''";
  }

  lemma FiveUnbalanced()
    ensures Split("'''''") == None
  {
    ToggleTwice("'''", None);
    ToggleTwice("'", Some(""));
    assert Words("'", Plain, Some("")) == Words("'"[1..], Single, Some(""));
  }

  lemma ToggleTwice(rest: string, word: Option<string>)
    ensures Words("''" + rest, Plain, word) == Words(rest, Plain, Some(Begun(word)))
  {
    var text := "''" + rest;
    assert text[0] == APOSTROPHE && text[1..] == "'" + rest;
    assert text[1..][0] == APOSTROPHE && text[1..][1..] == rest;
  }
}
