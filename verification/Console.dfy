/** Splitting a console line into a command and its arguments, which may be quoted in three ways. */
module Console {

  predicate IsSpace(c: char) {
    c == ' ' || '\t' <= c <= '\r'
  }

  predicate IsQuote(c: char) {
    c == '"' || c == '\'' || c == '`'
  }

  /*******************************************************************************
   *  What is left to parse is always a suffix of the line
   *******************************************************************************/

  /** The first index of a character; the string's length if it does not occur. */
  function Index(s: string, c: char): (i: nat)
    ensures i <= |s|
  {
    if s == [] || s[0] == c then 0 else 1 + Index(s[1..], c)
  }

  function SpaceLen(s: string): (n: nat)
    ensures n <= |s|
  {
    if s == [] || !IsSpace(s[0]) then 0 else 1 + SpaceLen(s[1..])
  }

  /** Up to the closing quote, or only the quote itself if it is never closed; one character otherwise. */
  function StepLen(s: string): (n: nat)
    requires s != []
    ensures 0 < n <= |s|
  {
    var closing := Index(s[1..], s[0]);
    if IsQuote(s[0]) && closing < |s| - 1 then closing + 2 else 1
  }

  function WordLen(s: string): (n: nat)
    ensures n <= |s|
    decreases |s|
  {
    if s == [] || IsSpace(s[0]) then 0 else StepLen(s) + WordLen(s[StepLen(s)..])
  }

  /** Without the quotes around it; a lone quote is nothing. */
  function Stripped(arg: string): string {
    if arg != [] && IsQuote(arg[0]) && arg[|arg| - 1] == arg[0]
    then if |arg| == 1 then [] else arg[1..|arg| - 1]
    else arg
  }

  function Kept(arg: string): seq<string> {
    if arg == [] then [] else [arg]
  }

  function ArgsOf(s: string): seq<string>
    decreases |s|
  {
    if s == [] then []
    else
      var t := s[SpaceLen(s)..];
      AfterWord(s, t);
      Kept(Stripped(t[..WordLen(t)])) + ArgsOf(t[WordLen(t)..])
  }

  lemma AfterWord(s: string, t: string)
    requires s != [] && t == s[SpaceLen(s)..]
    ensures |t[WordLen(t)..]| < |s|
  {
    if t != [] && SpaceLen(s) == 0 {
      assert t == s;
    }
  }

  /** Advances over blanks. */
  method SkipSpace(s: string, start: nat) returns (ptr: nat)
    requires start <= |s|
    ensures ptr == start + SpaceLen(s[start..])
  {
    ptr := start;
    while ptr != |s| && IsSpace(s[ptr])
      invariant start <= ptr <= |s|
      invariant SpaceLen(s[start..]) == ptr - start + SpaceLen(s[ptr..])
    {
      ptr := ptr + 1;
    }
  }

  /** Past the closing quote if there is one, and past one character otherwise. */
  method SkipCharacter(s: string, start: nat) returns (ptr: nat)
    requires start < |s|
    ensures ptr == start + StepLen(s[start..])
  {
    ptr := start;
    if IsQuote(s[ptr]) {
      var seeker := ptr + 1;
      while seeker != |s| && s[seeker] != s[ptr]
        invariant ptr < seeker <= |s|
        invariant Index(s[ptr + 1..], s[ptr]) == seeker - ptr - 1 + Index(s[seeker..], s[ptr])
      {
        seeker := seeker + 1;
      }
      assert s[start..][1..] == s[start + 1..];
      if seeker != |s| {
        ptr := seeker;
      }
    }
    ptr := ptr + 1;
  }

  method SkipWord(s: string, start: nat) returns (ptr: nat)
    requires start <= |s|
    ensures ptr == start + WordLen(s[start..])
  {
    ptr := start;
    while ptr != |s| && !IsSpace(s[ptr])
      invariant start <= ptr <= |s|
      invariant WordLen(s[start..]) == ptr - start + WordLen(s[ptr..])
    {
      WordStep(s[ptr..]);
      var next := SkipCharacter(s, ptr);
      assert s[ptr..][next - ptr..] == s[next..];
      ptr := next;
    }
  }

  lemma WordStep(s: string)
    requires s != [] && !IsSpace(s[0])
    ensures WordLen(s) == StepLen(s) + WordLen(s[StepLen(s)..])
  {
  }

  lemma ArgsStep(s: string, start: nat, word: nat, end: nat)
    requires start < |s| && word == start + SpaceLen(s[start..]) && end == word + WordLen(s[word..])
    ensures start < end <= |s|
    ensures ArgsOf(s[start..]) == Kept(Stripped(s[word..end])) + ArgsOf(s[end..])
  {
    var rest := s[start..];
    var t := rest[SpaceLen(rest)..];
    assert t == s[word..];
    AfterWord(rest, t);
    assert t[..WordLen(t)] == s[word..end] && t[WordLen(t)..] == s[end..];
  }

  method NextArg(s: string, start: nat) returns (arg: string, end: nat)
    requires start < |s|
    ensures start < end <= |s|
    ensures ArgsOf(s[start..]) == Kept(arg) + ArgsOf(s[end..])
  {
    var prevPtr := SkipSpace(s, start);
    end := SkipWord(s, prevPtr);
    ArgsStep(s, start, prevPtr, end);
    arg := Stripped(s[prevPtr..end]);
  }

  lemma KeptNext(args: seq<string>, arg: string, rest: seq<string>)
    ensures args + (Kept(arg) + rest) == (if arg != [] then args + [arg] else args) + rest
  {
  }

  method ParseArgs(s: string) returns (args: seq<string>)
    ensures args == ArgsOf(s)
  {
    args := [];
    var ptr := 0;
    ghost var all := ArgsOf(s);
    assert s[0..] == s;
    while ptr != |s|
      invariant ptr <= |s|
      invariant args + ArgsOf(s[ptr..]) == all
      decreases |s| - ptr
    {
      var arg, next := NextArg(s, ptr);
      KeptNext(args, arg, ArgsOf(s[next..]));
      if arg != [] {
        args := args + [arg];
      }
      ptr := next;
    }
  }

  method ParseCommand(line: string) returns (command: string, args: seq<string>)
    ensures command == line[..Index(line, ' ')]
    ensures args == ArgsOf(line[Index(line, ' ')..])
  {
    var end := Index(line, ' ');
    command := line[..end];
    args := ParseArgs(line[end..]);
  }

  /*******************************************************************************
   *  Writing arguments so that they are parsed back
   *******************************************************************************/

  /** An argument between quotes, which may be anything without that quote, or a bare word. */
  datatype Item =
    | Quoted(space: string, quote: char, arg: string)
    | Bare(space: string, arg: string)

  /** The blanks of the C locale. */
  const BLANKS := " \t\n\U{000B}\U{000C}\r"

  const QUOTES := "\"'`"

  lemma Classes(c: char)
    ensures IsSpace(c) <==> c in " \t\n\U{000B}\U{000C}\r"
    ensures IsQuote(c) <==> c in "\"'`"
  {
    assert BLANKS[0] == ' ' && BLANKS[1] == '\t' && BLANKS[2] == '\n' && BLANKS[3] == '\U{000B}';
    assert BLANKS[4] == '\U{000C}' && BLANKS[5] == '\r';
    assert QUOTES[0] == '"' && QUOTES[1] == '\'' && QUOTES[2] == '`';
  }

  predicate AllSpace(s: string) {
    forall i | 0 <= i < |s| :: s[i] in BLANKS
  }

  /** A word without blanks or quotes. */
  predicate Plain(w: string) {
    forall i | 0 <= i < |w| :: w[i] !in BLANKS && w[i] !in QUOTES
  }

  predicate WellWritten(item: Item) {
    && item.space != [] && AllSpace(item.space)
    && match item
       case Quoted(_, q, arg) => q in QUOTES && q !in arg
       case Bare(_, arg) => arg != [] && Plain(arg)
  }

  function Written(item: Item): string {
    match item
    case Quoted(_, q, arg) => [q] + arg + [q]
    case Bare(_, arg) => arg
  }

  function Text(items: seq<Item>, trail: string): string {
    if items == [] then trail else items[0].space + (Written(items[0]) + Text(items[1..], trail))
  }

  function Arguments(items: seq<Item>): seq<string> {
    if items == [] then [] else Kept(items[0].arg) + Arguments(items[1..])
  }

  predicate StartsWord(s: string) {
    s == [] || !IsSpace(s[0])
  }

  predicate EndsWord(s: string) {
    s == [] || IsSpace(s[0])
  }

  lemma {:induction false} SpaceLenIs(space: string, s: string)
    requires AllSpace(space) && StartsWord(s)
    ensures SpaceLen(space + s) == |space|
  {
    if space == [] {
      assert space + s == s;
    } else {
      assert (space + s)[1..] == space[1..] + s;
      SpaceLenIs(space[1..], s);
    }
  }

  lemma {:induction false} IndexIs(a: string, q: char, s: string)
    requires q !in a
    ensures Index(a + [q] + s, q) == |a|
  {
    if a != [] {
      assert (a + [q] + s)[1..] == a[1..] + [q] + s;
      IndexIs(a[1..], q, s);
    }
  }

  lemma ClosedLen(t: string, n: nat)
    requires t != [] && IsQuote(t[0]) && Index(t[1..], t[0]) == n && n + 2 <= |t| && EndsWord(t[n + 2..])
    ensures WordLen(t) == n + 2
  {
    WordStep(t);
  }

  lemma QuotedSplits(q: char, a: string, s: string, t: string)
    requires t == [q] + a + [q] + s
    ensures t != [] && t[0] == q && t[1..] == a + [q] + s && |a| + 2 <= |t| && t[|a| + 2..] == s
  {
  }

  lemma QuotedLen(q: char, a: string, s: string, t: string)
    requires IsQuote(q) && q !in a && EndsWord(s) && t == [q] + a + [q] + s
    ensures WordLen(t) == |a| + 2
  {
    QuotedSplits(q, a, s, t);
    IndexIs(a, q, s);
    ClosedLen(t, |a|);
  }

  lemma {:induction false} PlainLen(w: string, s: string)
    requires Plain(w)
    ensures WordLen(w + s) == |w| + WordLen(s)
  {
    if w == [] {
      assert w + s == s;
    } else {
      assert (w + s)[1..] == w[1..] + s;
      PlainLen(w[1..], s);
    }
  }

  lemma ItemLen(item: Item, s: string)
    requires WellWritten(item) && EndsWord(s)
    ensures WordLen(Written(item) + s) == |Written(item)|
    ensures Stripped(Written(item)) == item.arg
    ensures StartsWord(Written(item) + s)
  {
    match item
    case Quoted(_, q, a) => QuotedLen(q, a, s, Written(item) + s);
    case Bare(_, w) => PlainLen(w, s);
  }

  ghost predicate AllWellWritten(items: seq<Item>) {
    forall i | 0 <= i < |items| :: WellWritten(items[i])
  }

  lemma {:induction false} ArgsOfText(items: seq<Item>, trail: string)
    requires AllWellWritten(items) && AllSpace(trail)
    ensures ArgsOf(Text(items, trail)) == Arguments(items)
    ensures EndsWord(Text(items, trail))
  {
    if items == [] {
      if trail != [] {
        assert trail + [] == trail;
        SpaceLenIs(trail, []);
      }
    } else {
      var item, rest := items[0], Text(items[1..], trail);
      ArgsOfText(items[1..], trail);
      ItemLen(item, rest);
      var t := Written(item) + rest;
      SpaceLenIs(item.space, t);
      assert Text(items, trail)[|item.space|..] == t;
      assert t[..|Written(item)|] == Written(item) && t[|Written(item)|..] == rest;
    }
  }

  /** A command without a space, and then arguments written as above; the first blank must be a space. */
  ghost predicate IsLine(line: string, command: string, items: seq<Item>, trail: string) {
    && ' ' !in command && AllWellWritten(items) && AllSpace(trail)
    && line == command + Text(items, trail)
    && (Text(items, trail) != [] ==> Text(items, trail)[0] == ' ')
  }

  lemma {:induction false} CommandEnds(command: string, s: string)
    requires ' ' !in command && (s != [] ==> s[0] == ' ')
    ensures Index(command + s, ' ') == |command|
  {
    if command == [] {
      assert command + s == s;
    } else {
      assert (command + s)[1..] == command[1..] + s;
      CommandEnds(command[1..], s);
    }
  }

  /** Parsing gives back the command and the arguments that are not empty. */
  lemma ParseInvertsQuoting(line: string, command: string, items: seq<Item>, trail: string)
    requires IsLine(line, command, items, trail)
    ensures line[..Index(line, ' ')] == command
    ensures ArgsOf(line[Index(line, ' ')..]) == Arguments(items)
  {
    CommandEnds(command, Text(items, trail));
    ArgsOfText(items, trail);
    assert line[|command|..] == Text(items, trail);
  }

  lemma {:induction false} NotFound(s: string, c: char)
    requires c !in s
    ensures Index(s, c) == |s|
  {
    if s != [] {
      NotFound(s[1..], c);
    }
  }

  lemma UnclosedLen(before: string, q: char, after: string, word: string)
    requires Plain(before) && IsQuote(q) && Plain(after) && word == before + ([q] + after)
    ensures WordLen(word) == |word|
  {
    PlainLen(before, [q] + after);
    assert ([q] + after)[1..] == after;
    NotFound(after, q);
    WordStep([q] + after);
    PlainLen(after, []);
    assert after + [] == after;
  }

  /** A quote that is never closed is an ordinary character, unless it is the whole argument. */
  lemma UnclosedQuoteIff(before: string, q: char, after: string, word: string)
    requires Plain(before) && IsQuote(q) && Plain(after) && word == before + ([q] + after)
    ensures ArgsOf(" " + word) == [word] <==> |word| > 1
  {
    UnclosedLen(before, q, after, word);
    SpaceLenIs(" ", word);
    var s := " " + word;
    assert s[1..] == word && word[..|word|] == word && word[|word|..] == [];
    assert ArgsOf(s) == Kept(Stripped(word)) + [];
  }

  function DoubleQuoted(args: seq<string>): (items: seq<Item>)
    ensures |items| == |args|
  {
    seq(|args|, i requires 0 <= i < |args| => Quoted(" ", '"', args[i]))
  }

  /** Exactly when a list of arguments, each put between double quotes, is parsed back: none of them is empty. */
  lemma QuotedListIff(args: seq<string>)
    requires forall i | 0 <= i < |args| :: '"' !in args[i]
    ensures ArgsOf(Text(DoubleQuoted(args), "")) == args <==> [] !in args
  {
    ArgsOfText(DoubleQuoted(args), "");
    ArgumentsOf(args);
  }

  lemma {:induction false} ArgumentsOf(args: seq<string>)
    ensures |Arguments(DoubleQuoted(args))| <= |args|
    ensures Arguments(DoubleQuoted(args)) == args <==> [] !in args
    ensures [] in args ==> |Arguments(DoubleQuoted(args))| < |args|
  {
    if args != [] {
      assert DoubleQuoted(args)[1..] == DoubleQuoted(args[1..]);
      ArgumentsOf(args[1..]);
      assert args == [args[0]] + args[1..];
    }
  }
}
