/** The parser of sh.c.

    The methods follow the source: a cursor into the text, moved by gettoken
    and peek.  They are proved against a grammar on the tokens of the text, and
    the grammar against the lines that one can type and what they mean.  None is
    a syntax error, which ends the shell's child process. */
module Shell {
  import opened Common

  const MAXARGS := 10

  /** The bytes from q up to eq. */
  datatype Span = Span(q: nat, eq: nat)

  datatype Mode = Read | Truncate | Append

  /** A redirection; its file descriptor is 0 for Read and 1 otherwise. */
  datatype Redirect = Redirect(file: Span, mode: Mode)

  datatype Cmd = Exec(argv: seq<Span>) | Redir(cmd: Cmd, to: Redirect) | Pipe(left: Cmd, right: Cmd) | List(left: Cmd, right: Cmd) | Back(cmd: Cmd)

  // Characters.

  predicate IsSpace(c: char) { c == ' ' || c == '\t' || c == '\r' || c == '\n' || c == '\U{000B}' }

  predicate IsSymbol(c: char) { c == '<' || c == '|' || c == '>' || c == '&' || c == ';' || c == '(' || c == ')' }

  predicate IsWordChar(c: char) { !IsSpace(c) && !IsSymbol(c) && c != '\0' }

  /** The byte at s; the text ends with a zero byte. */
  function At(text: string, s: nat): char { if s < |text| then text[s] else '\0' }

  predicate IsText(text: string) { forall i | 0 <= i < |text| :: text[i] != '\0' }

  // Tokens.

  /** An operator is its character, with '+' for ">>". */
  datatype Token = Word(span: Span) | Op(c: char)

  function Skip(text: string, s: nat): (r: nat)
    ensures s <= |text| ==> s <= r <= |text|
    ensures r < |text| ==> !IsSpace(text[r])
    ensures forall i | s <= i < r && i < |text| :: IsSpace(text[i])
    ensures s >= |text| ==> r == s
    decreases |text| - s
  {
    if s < |text| && IsSpace(text[s]) then Skip(text, s + 1) else s
  }

  function WordEnd(text: string, s: nat): (r: nat)
    ensures s <= |text| ==> s <= r <= |text|
    ensures r < |text| ==> !IsWordChar(text[r])
    ensures forall i | s <= i < r && i < |text| :: IsWordChar(text[i])
    ensures s < |text| && IsWordChar(text[s]) ==> s < r
    decreases |text| - s
  {
    if s < |text| && IsWordChar(text[s]) then WordEnd(text, s + 1) else s
  }

  function TokenAt(text: string, s: nat): Token
    requires s < |text|
  {
    if IsWordChar(text[s]) then Word(Span(s, WordEnd(text, s)))
    else if text[s] == '>' && At(text, s + 1) == '>' then Op('+')
    else Op(text[s])
  }

  function TokenEnd(text: string, s: nat): (r: nat)
    requires s < |text|
    ensures s < r <= |text|
  {
    if IsWordChar(text[s]) then WordEnd(text, s)
    else if text[s] == '>' && At(text, s + 1) == '>' then s + 2
    else s + 1
  }

  function Tokens(text: string, ps: nat): seq<Token>
    decreases |text| - ps
  {
    var s := Skip(text, ps);
    if s >= |text| then [] else [TokenAt(text, s)] + Tokens(text, TokenEnd(text, s))
  }

  lemma SkipSkip(text: string, ps: nat)
    ensures Skip(text, Skip(text, ps)) == Skip(text, ps) && Tokens(text, Skip(text, ps)) == Tokens(text, ps)
  {
  }

  // The grammar.

  predicate Starts(ts: seq<Token>, c: char) { ts != [] && ts[0] == Op(c) }

  function Wrap(c: Cmd, rs: seq<Redirect>): Cmd {
    if rs == [] then c else Redir(Wrap(c, rs[..|rs| - 1]), rs[|rs| - 1])
  }

  function ModeOf(c: char): Mode { if c == '<' then Read else if c == '>' then Truncate else Append }

  /** The redirections at the front are added to rs. */
  function Redirs(rs: seq<Redirect>, ts: seq<Token>): (r: Option<(seq<Redirect>, seq<Token>)>)
    ensures r.Some? ==> |r.value.1| <= |ts|
    decreases |ts|
  {
    if Starts(ts, '<') || Starts(ts, '>') || Starts(ts, '+') then
      if |ts| > 1 && ts[1].Word? then Redirs(rs + [Redirect(ts[1].span, ModeOf(ts[0].c))], ts[2..]) else None
    else
      Some((rs, ts))
  }

  predicate EndsArgs(ts: seq<Token>) { Starts(ts, '|') || Starts(ts, ')') || Starts(ts, '&') || Starts(ts, ';') }

  function Args(argv: seq<Span>, rs: seq<Redirect>, ts: seq<Token>): (r: Option<(Cmd, seq<Token>)>)
    ensures r.Some? ==> |r.value.1| <= |ts|
    decreases |ts|
  {
    if EndsArgs(ts) || ts == [] then Some((Wrap(Exec(argv), rs), ts))
    else if !ts[0].Word? || |argv| + 1 >= MAXARGS then None
    else
      var r := Redirs(rs, ts[1..]);
      if r.None? then None else Args(argv + [ts[0].span], r.value.0, r.value.1)
  }

  function Block(ts: seq<Token>): (r: Option<(Cmd, seq<Token>)>)
    requires Starts(ts, '(')
    ensures r.Some? ==> |r.value.1| < |ts|
    decreases |ts|, 0
  {
    var r := Line(ts[1..]);
    if r.None? || !Starts(r.value.1, ')') then None
    else
      var q := Redirs([], r.value.1[1..]);
      if q.None? then None else Some((Wrap(r.value.0, q.value.0), q.value.1))
  }

  function Simple(ts: seq<Token>): (r: Option<(Cmd, seq<Token>)>)
    ensures r.Some? ==> |r.value.1| <= |ts|
    decreases |ts|, 1
  {
    if Starts(ts, '(') then Block(ts)
    else
      var r := Redirs([], ts);
      if r.None? then None else Args([], r.value.0, r.value.1)
  }

  function Pipeline(ts: seq<Token>): (r: Option<(Cmd, seq<Token>)>)
    ensures r.Some? ==> |r.value.1| <= |ts|
    decreases |ts|, 2
  {
    var r := Simple(ts);
    if r.None? || !Starts(r.value.1, '|') then r
    else
      var q := Pipeline(r.value.1[1..]);
      if q.None? then None else Some((Pipe(r.value.0, q.value.0), q.value.1))
  }

  function Backs(c: Cmd, ts: seq<Token>): (r: (Cmd, seq<Token>))
    ensures |r.1| <= |ts|
    decreases |ts|
  {
    if Starts(ts, '&') then Backs(Back(c), ts[1..]) else (c, ts)
  }

  function Line(ts: seq<Token>): (r: Option<(Cmd, seq<Token>)>)
    ensures r.Some? ==> |r.value.1| <= |ts|
    decreases |ts|, 3
  {
    var r := Pipeline(ts);
    if r.None? then None
    else
      var b := Backs(r.value.0, r.value.1);
      if !Starts(b.1, ';') then Some(b)
      else
        var q := Line(b.1[1..]);
        if q.None? then None else Some((List(b.0, q.value.0), q.value.1))
  }

  /** What the whole text stands for. */
  function Command(text: string): Option<Cmd> {
    var r := Line(Tokens(text, 0));
    if r.None? || r.value.1 != [] then None else Some(r.value.0)
  }

  // The parser.

  /** A token of the text: word characters up to something else. */
  ghost predicate SpanOk(text: string, w: Span) {
    && w.q < w.eq <= |text|
    && (forall i | w.q <= i < w.eq :: IsWordChar(text[i]))
    && (w.eq < |text| ==> !IsWordChar(text[w.eq]))
  }

  ghost predicate SpansOk(text: string, c: Cmd) {
    match c
    case Exec(argv) => forall w | w in argv :: SpanOk(text, w)
    case Redir(c1, to) => SpansOk(text, c1) && SpanOk(text, to.file)
    case Pipe(l, r) => SpansOk(text, l) && SpansOk(text, r)
    case List(l, r) => SpansOk(text, l) && SpansOk(text, r)
    case Back(c1) => SpansOk(text, c1)
  }

  method SkipSpace(text: string, s0: nat) returns (s: nat)
    requires s0 <= |text|
    ensures s == Skip(text, s0)
  {
    s := s0;
    while s < |text| && IsSpace(text[s])
      invariant s0 <= s <= |text| && Skip(text, s0) == Skip(text, s)
    {
      s := s + 1;
    }
  }

  /** gettoken: the token's kind, its span and the cursor after the token and
      the space that follows it.  Kind 0 is the end of the text. */
  method GetToken(text: string, ps: nat) returns (ret: char, w: Span, ps': nat)
    requires IsText(text) && ps <= |text|
    ensures ps <= ps' <= |text|
    ensures ret == '\0' <==> Tokens(text, ps) == []
    ensures ret == '\0' ==> ps' == |text|
    ensures ret != '\0' ==> ps < ps' && Tokens(text, ps) == [if ret == 'a' then Word(w) else Op(ret)] + Tokens(text, ps')
    ensures ret == 'a' ==> SpanOk(text, w)
  {
    hide Tokens, Skip, WordEnd;
    var s := SkipSpace(text, ps);
    var q := s;
    TokensFrom(text, ps);
    ret := At(text, s);
    if ret == '\0' {
    } else if ret == '|' || ret == '(' || ret == ')' || ret == ';' || ret == '&' || ret == '<' {
      s := s + 1;
    } else if ret == '>' {
      s := s + 1;
      if At(text, s) == '>' {
        ret := '+';
        s := s + 1;
      }
    } else {
      ret := 'a';
      s := ScanWord(text, s);
    }
    w := Span(q, s);
    SkipSkip(text, s);
    ps' := SkipSpace(text, s);
  }

  /** The loop over the characters of a word. */
  method ScanWord(text: string, q: nat) returns (s: nat)
    requires IsText(text) && q <= |text|
    ensures s == WordEnd(text, q)
  {
    s := q;
    while s < |text| && !IsSpace(text[s]) && !IsSymbol(text[s])
      invariant q <= s <= |text| && WordEnd(text, q) == WordEnd(text, s)
    {
      s := s + 1;
    }
  }

  lemma TokensFrom(text: string, ps: nat)
    requires IsText(text) && ps <= |text|
    ensures var s := Skip(text, ps);
            if s == |text| then Tokens(text, ps) == []
            else s < |text| && Tokens(text, ps) == [TokenAt(text, s)] + Tokens(text, TokenEnd(text, s))
  {
  }

  /** peek: the cursor is moved to the next token. */
  method Peek(text: string, ps: nat, toks: string) returns (there: bool, ps': nat)
    requires IsText(text) && ps <= |text|
    ensures ps <= ps' <= |text| && Tokens(text, ps') == Tokens(text, ps) && ps' == Skip(text, ps)
    ensures there <==> ps' < |text| && text[ps'] in toks
  {
    ps' := SkipSpace(text, ps);
    SkipSkip(text, ps);
    there := ps' < |text| && text[ps'] in toks;
  }

  /** The first token by its first character. */
  lemma FirstToken(text: string, ps: nat)
    requires IsText(text) && ps <= |text|
    ensures var s, ts := Skip(text, ps), Tokens(text, ps);
            && (ts == [] <==> s == |text|)
            && (forall c | IsSymbol(c) && c != '>' :: Starts(ts, c) <==> At(text, s) == c)
            && (Starts(ts, '>') || Starts(ts, '+') <==> At(text, s) == '>')
  {
  }

  ghost predicate FilesOk(text: string, rs: seq<Redirect>) {
    forall r | r in rs :: SpanOk(text, r.file)
  }

  /** parseredirs, with the redirections as a list. */
  method ParseRedirs(text: string, ps: nat, rs: seq<Redirect>) returns (r: Option<seq<Redirect>>, ps': nat)
    requires IsText(text) && ps <= |text| && FilesOk(text, rs)
    ensures ps <= ps' <= |text|
    ensures Redirs(rs, Tokens(text, ps)) == if r.None? then None else Some((r.value, Tokens(text, ps')))
    ensures r.Some? ==> FilesOk(text, r.value)
  {
    hide Tokens, SpanOk;
    var out := rs;
    ps' := ps;
    while true
      invariant ps <= ps' <= |text| && FilesOk(text, out)
      invariant Redirs(rs, Tokens(text, ps)) == Redirs(out, Tokens(text, ps'))
      decreases |text| - ps'
    {
      FirstToken(text, ps');
      var more;
      more, ps' := Peek(text, ps', "<>");
      if !more {
        return Some(out), ps';
      }
      ghost var ts := Tokens(text, ps');
      var tok, ret, w, w';
      tok, w, ps' := GetToken(text, ps');
      ret, w', ps' := GetToken(text, ps');
      if ret != 'a' {
        return None, ps';
      }
      assert ts == [Op(tok), Word(w')] + Tokens(text, ps');
      assert ts[2..] == Tokens(text, ps');
      out := out + [Redirect(w', if tok == '<' then Read else if tok == '>' then Truncate else Append)];
    }
  }

  lemma {:induction false} WrapOk(text: string, c: Cmd, rs: seq<Redirect>)
    requires SpansOk(text, c) && FilesOk(text, rs)
    ensures SpansOk(text, Wrap(c, rs))
  {
    if rs != [] {
      WrapOk(text, c, rs[..|rs| - 1]);
    }
  }

  /** parseexec, for what is not a block. */
  method ParseArgs(text: string, ps: nat) returns (r: Option<Cmd>, ps': nat)
    requires IsText(text) && ps <= |text| && !Starts(Tokens(text, ps), '(')
    ensures ps <= ps' <= |text|
    ensures Simple(Tokens(text, ps)) == if r.None? then None else Some((r.value, Tokens(text, ps')))
    ensures r.Some? ==> SpansOk(text, r.value)
  {
    hide Tokens, SpanOk, Redirs;
    var argv := [];
    var rs;
    rs, ps' := ParseRedirs(text, ps, []);
    if rs.None? {
      return None, ps';
    }
    while true
      invariant ps <= ps' <= |text| && rs.Some? && FilesOk(text, rs.value) && (forall w | w in argv :: SpanOk(text, w))
      invariant Simple(Tokens(text, ps)) == Args(argv, rs.value, Tokens(text, ps'))
      decreases |text| - ps'
    {
      FirstToken(text, ps');
      var stop, tok, w;
      stop, ps' := Peek(text, ps', "|)&;");
      if stop {
        break;
      }
      ghost var ts := Tokens(text, ps');
      tok, w, ps' := GetToken(text, ps');
      if tok == '\0' {
        break;
      }
      if tok != 'a' {
        return None, ps';
      }
      argv := argv + [w];
      if |argv| >= MAXARGS {
        return None, ps';
      }
      assert ts[1..] == Tokens(text, ps');
      rs, ps' := ParseRedirs(text, ps', rs.value);
      if rs.None? {
        return None, ps';
      }
    }
    WrapOk(text, Exec(argv), rs.value);
    return Some(Wrap(Exec(argv), rs.value)), ps';
  }

  method ParseExec(text: string, ps: nat) returns (r: Option<Cmd>, ps': nat)
    requires IsText(text) && ps <= |text|
    ensures ps <= ps' <= |text|
    ensures Simple(Tokens(text, ps)) == if r.None? then None else Some((r.value, Tokens(text, ps')))
    ensures r.Some? ==> SpansOk(text, r.value)
    decreases |text| - ps, 1
  {
    hide Tokens, SpansOk;
    FirstToken(text, ps);
    var block;
    block, ps' := Peek(text, ps, "(");
    if block {
      r, ps' := ParseBlock(text, ps');
    } else {
      r, ps' := ParseArgs(text, ps');
    }
  }

  method ParseBlock(text: string, ps: nat) returns (r: Option<Cmd>, ps': nat)
    requires IsText(text) && ps <= |text| && Starts(Tokens(text, ps), '(')
    ensures ps <= ps' <= |text|
    ensures Block(Tokens(text, ps)) == if r.None? then None else Some((r.value, Tokens(text, ps')))
    ensures r.Some? ==> SpansOk(text, r.value)
    decreases |text| - ps, 0
  {
    hide Tokens, SpansOk;
    var tok, w, closed, rs;
    tok, w, ps' := GetToken(text, ps);
    assert Tokens(text, ps)[1..] == Tokens(text, ps');
    r, ps' := ParseLine(text, ps');
    if r.None? {
      return;
    }
    FirstToken(text, ps');
    closed, ps' := Peek(text, ps', ")");
    if !closed {
      return None, ps';
    }
    ghost var ts := Tokens(text, ps');
    tok, w, ps' := GetToken(text, ps');
    assert ts[1..] == Tokens(text, ps');
    rs, ps' := ParseRedirs(text, ps', []);
    if rs.None? {
      return None, ps';
    }
    WrapOk(text, r.value, rs.value);
    r := Some(Wrap(r.value, rs.value));
  }

  method ParsePipe(text: string, ps: nat) returns (r: Option<Cmd>, ps': nat)
    requires IsText(text) && ps <= |text|
    ensures ps <= ps' <= |text|
    ensures Pipeline(Tokens(text, ps)) == if r.None? then None else Some((r.value, Tokens(text, ps')))
    ensures r.Some? ==> SpansOk(text, r.value)
    decreases |text| - ps, 2
  {
    hide Tokens;
    r, ps' := ParseExec(text, ps);
    if r.None? {
      return;
    }
    FirstToken(text, ps');
    var more, tok, w, right;
    more, ps' := Peek(text, ps', "|");
    if more {
      ghost var ts := Tokens(text, ps');
      tok, w, ps' := GetToken(text, ps');
      assert ts[1..] == Tokens(text, ps');
      right, ps' := ParsePipe(text, ps');
      if right.None? {
        return None, ps';
      }
      r := Some(Pipe(r.value, right.value));
    }
  }

  method ParseLine(text: string, ps: nat) returns (r: Option<Cmd>, ps': nat)
    requires IsText(text) && ps <= |text|
    ensures ps <= ps' <= |text|
    ensures Line(Tokens(text, ps)) == if r.None? then None else Some((r.value, Tokens(text, ps')))
    ensures r.Some? ==> SpansOk(text, r.value)
    decreases |text| - ps, 3
  {
    hide Tokens;
    r, ps' := ParsePipe(text, ps);
    if r.None? {
      return;
    }
    var cmd := r.value;
    ghost var b := Backs(cmd, Tokens(text, ps'));
    var more, tok, w, right;
    while true
      invariant ps <= ps' <= |text| && SpansOk(text, cmd) && Backs(cmd, Tokens(text, ps')) == b
      decreases |text| - ps'
    {
      FirstToken(text, ps');
      more, ps' := Peek(text, ps', "&");
      if !more {
        break;
      }
      ghost var ts := Tokens(text, ps');
      tok, w, ps' := GetToken(text, ps');
      assert ts[1..] == Tokens(text, ps');
      cmd := Back(cmd);
    }
    FirstToken(text, ps');
    more, ps' := Peek(text, ps', ";");
    if more {
      ghost var ts := Tokens(text, ps');
      tok, w, ps' := GetToken(text, ps');
      assert ts[1..] == Tokens(text, ps');
      right, ps' := ParseLine(text, ps');
      if right.None? {
        return None, ps';
      }
      cmd := List(cmd, right.value);
    }
    r := Some(cmd);
  }

  /** parsecmd, before nulterminate. */
  method ParseCmd(text: string) returns (r: Option<Cmd>)
    requires IsText(text)
    ensures r == Command(text)
    ensures r.Some? ==> SpansOk(text, r.value)
  {
    hide Tokens, SpansOk;
    var ps, any;
    r, ps := ParseLine(text, 0);
    if r.None? {
      return;
    }
    FirstToken(text, ps);
    any, ps := Peek(text, ps, "");
    if ps != |text| {
      return None;
    }
  }

  // Commands as they are typed.

  /** A command by its words. */
  datatype Tree = Run(words: seq<string>) | Redirected(tree: Tree, file: string, mode: Mode) | Piped(left: Tree, right: Tree)
                | Listed(left: Tree, right: Tree) | Backed(tree: Tree)

  function Text(text: string, w: Span): string { if w.q <= w.eq <= |text| then text[w.q..w.eq] else "" }

  function Texts(text: string, argv: seq<Span>): seq<string> { seq(|argv|, i requires 0 <= i < |argv| => Text(text, argv[i])) }

  /** What a parsed command stands for. */
  function Meaning(text: string, c: Cmd): Tree {
    match c
    case Exec(argv) => Run(Texts(text, argv))
    case Redir(c1, to) => Redirected(Meaning(text, c1), Text(text, to.file), to.mode)
    case Pipe(l, r) => Piped(Meaning(text, l), Meaning(text, r))
    case List(l, r) => Listed(Meaning(text, l), Meaning(text, r))
    case Back(c1) => Backed(Meaning(text, c1))
  }

  datatype Target = Target(mode: Mode, file: string)

  /** What a command is made of, in any order: words and redirections. */
  datatype Item = Arg(word: string) | To(to: Target)

  datatype Part = Plain(items: seq<Item>) | Group(line: Src, tos: seq<Target>)

  datatype Pipes = Last(part: Part) | Piping(part: Part, rest: Pipes)

  /** A line: pipelines with "&" after them, separated by ";". */
  datatype Src = Final(pipes: Pipes, backs: nat) | Then(pipes: Pipes, backs: nat, next: Src)

  // Its tokens.

  datatype Symbol = W(word: string) | O(c: char)

  function OpOf(m: Mode): char { if m == Read then '<' else if m == Truncate then '>' else '+' }

  function ShowTo(to: Target): seq<Symbol> { [O(OpOf(to.mode)), W(to.file)] }

  function ShowTos(tos: seq<Target>): seq<Symbol> {
    if tos == [] then [] else ShowTo(tos[0]) + ShowTos(tos[1..])
  }

  function ShowItem(x: Item): seq<Symbol> { if x.Arg? then [W(x.word)] else ShowTo(x.to) }

  function ShowItems(items: seq<Item>): seq<Symbol> {
    if items == [] then [] else ShowItem(items[0]) + ShowItems(items[1..])
  }

  function Parens(ss: seq<Symbol>): seq<Symbol> { [O('(')] + ss + [O(')')] }

  function Amps(n: nat): seq<Symbol> { seq(n, _ => O('&')) }

  function ShowPart(x: Part): seq<Symbol> {
    match x
    case Plain(items) => ShowItems(items)
    case Group(line, tos) => Parens(Show(line)) + ShowTos(tos)
  }

  function ShowPipes(x: Pipes): seq<Symbol> {
    match x
    case Last(part) => ShowPart(part)
    case Piping(part, rest) => ShowPart(part) + ([O('|')] + ShowPipes(rest))
  }

  function Show(x: Src): seq<Symbol> {
    match x
    case Final(pipes, backs) => ShowPipes(pipes) + Amps(backs)
    case Then(pipes, backs, next) => ShowPipes(pipes) + (Amps(backs) + ([O(';')] + Show(next)))
  }

  // Its meaning.

  function WordsOf(items: seq<Item>): seq<string> {
    if items == [] then [] else (if items[0].Arg? then [items[0].word] else []) + WordsOf(items[1..])
  }

  function TargetsOf(items: seq<Item>): seq<Target> {
    if items == [] then [] else (if items[0].To? then [items[0].to] else []) + TargetsOf(items[1..])
  }

  /** The first redirection is the innermost. */
  function Under(t: Tree, tos: seq<Target>): Tree
    decreases |tos|
  {
    if tos == [] then t else Under(Redirected(t, tos[0].file, tos[0].mode), tos[1..])
  }

  function InBack(t: Tree, n: nat): Tree
    decreases n
  {
    if n == 0 then t else InBack(Backed(t), n - 1)
  }

  function PartTree(x: Part): Tree {
    match x
    case Plain(items) => Under(Run(WordsOf(items)), TargetsOf(items))
    case Group(line, tos) => Under(SrcTree(line), tos)
  }

  function PipesTree(x: Pipes): Tree {
    match x
    case Last(part) => PartTree(part)
    case Piping(part, rest) => Piped(PartTree(part), PipesTree(rest))
  }

  function SrcTree(x: Src): Tree {
    match x
    case Final(pipes, backs) => InBack(PipesTree(pipes), backs)
    case Then(pipes, backs, next) => Listed(InBack(PipesTree(pipes), backs), SrcTree(next))
  }

  /** At most 9 words to a command. */
  predicate FitsPart(x: Part) {
    match x
    case Plain(items) => |WordsOf(items)| < MAXARGS
    case Group(line, tos) => Fits(line)
  }

  predicate FitsPipes(x: Pipes) {
    match x
    case Last(part) => FitsPart(part)
    case Piping(part, rest) => FitsPart(part) && FitsPipes(rest)
  }

  predicate Fits(x: Src) {
    match x
    case Final(pipes, backs) => FitsPipes(pipes)
    case Then(pipes, backs, next) => FitsPipes(pipes) && Fits(next)
  }

  // Tokens that read as what was typed.

  predicate ReadsAs(text: string, tok: Token, sym: Symbol) {
    if tok.Word? then sym.W? && Text(text, tok.span) == sym.word else sym == O(tok.c)
  }

  ghost predicate Reads(text: string, ts: seq<Token>, ss: seq<Symbol>) {
    |ts| == |ss| && forall i | 0 <= i < |ts| :: ReadsAs(text, ts[i], ss[i])
  }

  lemma ReadsSplit(text: string, ts: seq<Token>, a: seq<Symbol>, b: seq<Symbol>) returns (p: seq<Token>, q: seq<Token>)
    requires Reads(text, ts, a + b)
    ensures ts == p + q && Reads(text, p, a) && Reads(text, q, b)
  {
    p, q := ts[..|a|], ts[|a|..];
    forall i | 0 <= i < |a| ensures ReadsAs(text, p[i], a[i]) {
      assert (a + b)[i] == a[i];
    }
    forall i | 0 <= i < |b| ensures ReadsAs(text, q[i], b[i]) {
      assert (a + b)[|a| + i] == b[i];
    }
  }

  lemma ReadsJoin(text: string, p: seq<Token>, q: seq<Token>, a: seq<Symbol>, b: seq<Symbol>)
    requires Reads(text, p, a) && Reads(text, q, b)
    ensures Reads(text, p + q, a + b)
  {
  }

  lemma ReadsOp(text: string, ts: seq<Token>, c: char)
    requires Reads(text, ts, [O(c)])
    ensures ts == [Op(c)]
  {
  }

  lemma ReadsWord(text: string, ts: seq<Token>, f: string) returns (w: Span)
    requires Reads(text, ts, [W(f)])
    ensures ts == [Word(w)] && Text(text, w) == f
  {
    assert ReadsAs(text, ts[0], W(f));
    w := ts[0].span;
  }

  lemma ReadsTo(text: string, ts: seq<Token>, to: Target) returns (w: Span)
    requires Reads(text, ts, ShowTo(to))
    ensures ts == [Op(OpOf(to.mode)), Word(w)] && Text(text, w) == to.file
  {
    assert ShowTo(to) == [O(OpOf(to.mode))] + [W(to.file)];
    var p, q := ReadsSplit(text, ts, [O(OpOf(to.mode))], [W(to.file)]);
    ReadsOp(text, p, OpOf(to.mode));
    w := ReadsWord(text, q, to.file);
  }

  lemma ReadsAmps(text: string, ts: seq<Token>, n: nat)
    requires Reads(text, ts, Amps(n))
    ensures ts == seq(n, _ => Op('&'))
  {
    forall i | 0 <= i < n ensures ts[i] == Op('&') {
      assert ReadsAs(text, ts[i], Amps(n)[i]);
    }
  }

  // What is typed parses to what it means.

  predicate Closed(rest: seq<Token>) { rest == [] || Starts(rest, ')') }

  predicate Stops(rest: seq<Token>) { rest == [] || EndsArgs(rest) }

  function TargetsIn(text: string, rs: seq<Redirect>): seq<Target> {
    seq(|rs|, i requires 0 <= i < |rs| => Target(rs[i].mode, Text(text, rs[i].file)))
  }

  lemma {:induction false} UnderMore(t: Tree, tos: seq<Target>, to: Target)
    ensures Under(t, tos + [to]) == Redirected(Under(t, tos), to.file, to.mode)
    decreases |tos|
  {
    if tos == [] {
      assert (tos + [to])[1..] == [];
    } else {
      assert (tos + [to])[1..] == tos[1..] + [to];
      UnderMore(Redirected(t, tos[0].file, tos[0].mode), tos[1..], to);
    }
  }

  lemma {:induction false} MeaningWrap(text: string, c: Cmd, rs: seq<Redirect>)
    ensures Meaning(text, Wrap(c, rs)) == Under(Meaning(text, c), TargetsIn(text, rs))
  {
    if rs != [] {
      var n := |rs| - 1;
      MeaningWrap(text, c, rs[..n]);
      UnderMore(Meaning(text, c), TargetsIn(text, rs[..n]), TargetsIn(text, rs)[n]);
      assert TargetsIn(text, rs) == TargetsIn(text, rs[..n]) + [TargetsIn(text, rs)[n]];
    }
  }

  /** The rest of a command after argv and rs. */
  function Items(argv: seq<Span>, rs: seq<Redirect>, ts: seq<Token>): Option<(Cmd, seq<Token>)> {
    var r := Redirs(rs, ts);
    if r.None? then None else Args(argv, r.value.0, r.value.1)
  }

  lemma ItemsTo(argv: seq<Span>, rs: seq<Redirect>, m: Mode, w: Span, ts: seq<Token>)
    ensures Items(argv, rs, [Op(OpOf(m)), Word(w)] + ts) == Items(argv, rs + [Redirect(w, m)], ts)
    ensures Redirs(rs, [Op(OpOf(m)), Word(w)] + ts) == Redirs(rs + [Redirect(w, m)], ts)
  {
    assert ([Op(OpOf(m)), Word(w)] + ts)[2..] == ts;
  }

  lemma ItemsArg(argv: seq<Span>, rs: seq<Redirect>, w: Span, ts: seq<Token>)
    requires |argv| + 1 < MAXARGS
    ensures Items(argv, rs, [Word(w)] + ts) == Items(argv + [w], rs, ts)
  {
    assert ([Word(w)] + ts)[1..] == ts;
  }

  lemma TextsMore(text: string, argv: seq<Span>, w: Span, more: seq<string>)
    ensures Texts(text, argv + [w]) + more == Texts(text, argv) + ([Text(text, w)] + more)
  {
  }

  lemma TargetsMore(text: string, rs: seq<Redirect>, r: Redirect, more: seq<Target>)
    ensures TargetsIn(text, rs + [r]) + more == TargetsIn(text, rs) + ([Target(r.mode, Text(text, r.file))] + more)
  {
  }

  lemma ItemsEnd(argv: seq<Span>, rs: seq<Redirect>, rest: seq<Token>)
    requires Stops(rest)
    ensures Items(argv, rs, rest) == Some((Wrap(Exec(argv), rs), rest)) && Redirs(rs, rest) == Some((rs, rest))
  {
  }

  lemma ItemsUnfold(items: seq<Item>)
    requires items != []
    ensures ShowItems(items) == ShowItem(items[0]) + ShowItems(items[1..])
    ensures items[0].Arg? ==> WordsOf(items) == [items[0].word] + WordsOf(items[1..]) && TargetsOf(items) == TargetsOf(items[1..])
    ensures items[0].To? ==> WordsOf(items) == WordsOf(items[1..]) && TargetsOf(items) == [items[0].to] + TargetsOf(items[1..])
  {
  }

  lemma ItemsNone()
    ensures ShowItems([]) == [] && WordsOf([]) == [] && TargetsOf([]) == []
  {
  }

  lemma ReadsNone(text: string, ts: seq<Token>, rest: seq<Token>)
    requires Reads(text, ts, [])
    ensures ts + rest == rest
  {
  }

  lemma {:induction false} ItemsParse(text: string, argv: seq<Span>, rs: seq<Redirect>, items: seq<Item>, ts: seq<Token>,
                                      rest: seq<Token>) returns (argv': seq<Span>, rs': seq<Redirect>)
    requires Reads(text, ts, ShowItems(items)) && |argv| + |WordsOf(items)| < MAXARGS && Stops(rest)
    ensures Items(argv, rs, ts + rest) == Some((Wrap(Exec(argv'), rs'), rest))
    ensures Texts(text, argv') == Texts(text, argv) + WordsOf(items)
    ensures TargetsIn(text, rs') == TargetsIn(text, rs) + TargetsOf(items)
    decreases |items|
  {
    hide Reads, Items, Wrap, Texts, TargetsIn, ShowItems, WordsOf, TargetsOf;
    if items == [] {
      assert ShowItems(items) == [] && WordsOf(items) == [] && TargetsOf(items) == [] by { ItemsNone(); }
      ReadsNone(text, ts, rest);
      ItemsEnd(argv, rs, rest);
      argv', rs' := argv, rs;
    } else {
      ItemsUnfold(items);
      var p, q := ReadsSplit(text, ts, ShowItem(items[0]), ShowItems(items[1..]));
      assert ts + rest == p + (q + rest);
      if items[0].Arg? {
        var w := ReadsWord(text, p, items[0].word);
        ItemsArg(argv, rs, w, q + rest);
        argv', rs' := ItemsParse(text, argv + [w], rs, items[1..], q, rest);
        TextsMore(text, argv, w, WordsOf(items[1..]));
      } else {
        var to := items[0].to;
        var w := ReadsTo(text, p, to);
        ItemsTo(argv, rs, to.mode, w, q + rest);
        argv', rs' := ItemsParse(text, argv, rs + [Redirect(w, to.mode)], items[1..], q, rest);
        TargetsMore(text, rs, Redirect(w, to.mode), TargetsOf(items[1..]));
      }
    }
  }

  lemma TosNone(text: string, rs: seq<Redirect>)
    ensures ShowTos([]) == [] && TargetsIn(text, rs) + [] == TargetsIn(text, rs)
  {
  }

  lemma TosUnfold(tos: seq<Target>)
    requires tos != []
    ensures ShowTos(tos) == ShowTo(tos[0]) + ShowTos(tos[1..])
  {
  }

  lemma {:induction false} RedirsParse(text: string, rs: seq<Redirect>, tos: seq<Target>, ts: seq<Token>, rest: seq<Token>)
    returns (rs': seq<Redirect>)
    requires Reads(text, ts, ShowTos(tos)) && Stops(rest)
    ensures Redirs(rs, ts + rest) == Some((rs', rest)) && TargetsIn(text, rs') == TargetsIn(text, rs) + tos
    decreases |tos|
  {
    hide Reads, Redirs, Items, TargetsIn, ShowTos;
    if tos == [] {
      TosNone(text, rs);
      ReadsNone(text, ts, rest);
      ItemsEnd([], rs, rest);
      rs' := rs;
    } else {
      TosUnfold(tos);
      var p, q := ReadsSplit(text, ts, ShowTo(tos[0]), ShowTos(tos[1..]));
      var w := ReadsTo(text, p, tos[0]);
      assert ts + rest == p + (q + rest);
      ItemsTo([], rs, tos[0].mode, w, q + rest);
      rs' := RedirsParse(text, rs + [Redirect(w, tos[0].mode)], tos[1..], q, rest);
      TargetsMore(text, rs, Redirect(w, tos[0].mode), tos[1..]);
      assert [tos[0]] + tos[1..] == tos;
    }
  }

  /** The parse is t, and what is left is rest. */
  ghost predicate Parses(text: string, r: Option<(Cmd, seq<Token>)>, t: Tree, rest: seq<Token>) {
    r.Some? && r.value.1 == rest && Meaning(text, r.value.0) == t
  }

  lemma NoParen(text: string, items: seq<Item>, ts: seq<Token>, rest: seq<Token>)
    requires Reads(text, ts, ShowItems(items)) && Stops(rest)
    ensures !Starts(ts + rest, '(')
  {
    if items != [] {
      assert ts != [] && ReadsAs(text, ts[0], ShowItems(items)[0]);
    }
  }

  lemma {:induction false} PlainParse(text: string, items: seq<Item>, ts: seq<Token>, rest: seq<Token>)
    requires Reads(text, ts, ShowItems(items)) && |WordsOf(items)| < MAXARGS && Stops(rest)
    ensures Parses(text, Simple(ts + rest), PartTree(Plain(items)), rest)
  {
    NoParen(text, items, ts, rest);
    var argv, rs := ItemsParse(text, [], [], items, ts, rest);
    assert Simple(ts + rest) == Items([], [], ts + rest);
    hide Items, Simple, Reads;
    assert Texts(text, []) + WordsOf(items) == WordsOf(items) && TargetsIn(text, []) + TargetsOf(items) == TargetsOf(items);
    MeaningWrap(text, Exec(argv), rs);
  }

  lemma SimpleBlock(inner: seq<Token>, tail: seq<Token>, c: Cmd, rs: seq<Redirect>, rest: seq<Token>)
    requires Line(inner + ([Op(')')] + tail)) == Some((c, [Op(')')] + tail)) && Redirs([], tail) == Some((rs, rest))
    ensures Simple([Op('(')] + (inner + ([Op(')')] + tail))) == Some((Wrap(c, rs), rest))
  {
    hide Line, Redirs;
    var ts := [Op('(')] + (inner + ([Op(')')] + tail));
    assert ts[1..] == inner + ([Op(')')] + tail);
    assert ([Op(')')] + tail)[1..] == tail;
  }

  lemma {:induction false} PartParse(text: string, x: Part, ts: seq<Token>, rest: seq<Token>)
    requires FitsPart(x) && Reads(text, ts, ShowPart(x)) && Stops(rest)
    ensures Parses(text, Simple(ts + rest), PartTree(x), rest)
    decreases x
  {
    hide Reads, Line, Simple, Redirs, Meaning;
    match x
    case Plain(items) => PlainParse(text, items, ts, rest);
    case Group(line, tos) =>
      var p, q := ReadsSplit(text, ts, Parens(Show(line)), ShowTos(tos));
      var inner := ReadsParens(text, p, Show(line));
      var rs := RedirsParse(text, [], tos, q, rest);
      assert TargetsIn(text, []) + tos == tos;
      var tail := q + rest;
      LineParse(text, line, inner, [Op(')')] + tail);
      var c := Line(inner + ([Op(')')] + tail)).value.0;
      SimpleBlock(inner, tail, c, rs, rest);
      assert ts + rest == [Op('(')] + (inner + ([Op(')')] + tail));
      MeaningWrap(text, c, rs);
  }

  lemma ReadsParens(text: string, ts: seq<Token>, ss: seq<Symbol>) returns (inner: seq<Token>)
    requires Reads(text, ts, Parens(ss))
    ensures ts == [Op('(')] + inner + [Op(')')] && Reads(text, inner, ss)
  {
    hide Reads;
    var p, last := ReadsSplit(text, ts, [O('(')] + ss, [O(')')]);
    var first;
    first, inner := ReadsSplit(text, p, [O('(')], ss);
    ReadsOp(text, first, '(');
    ReadsOp(text, last, ')');
  }

  lemma {:induction false} PipesParse(text: string, x: Pipes, ts: seq<Token>, rest: seq<Token>)
    requires FitsPipes(x) && Reads(text, ts, ShowPipes(x)) && Stops(rest) && !Starts(rest, '|')
    ensures Parses(text, Pipeline(ts + rest), PipesTree(x), rest)
    decreases x
  {
    hide Reads, Line, Simple, Meaning;
    match x
    case Last(part) =>
      PartParse(text, part, ts, rest);
    case Piping(part, more) =>
      var p, q := ReadsSplit(text, ts, ShowPart(part), [O('|')] + ShowPipes(more));
      var bar, z := ReadsSplit(text, q, [O('|')], ShowPipes(more));
      ReadsOp(text, bar, '|');
      var tail := [Op('|')] + (z + rest);
      PartParse(text, part, p, tail);
      PipesParse(text, more, z, rest);
      assert ts + rest == p + tail && tail[1..] == z + rest;
      MeaningPipe(text, Simple(p + tail).value.0, Pipeline(z + rest).value.0);
  }

  lemma MeaningPipe(text: string, l: Cmd, r: Cmd)
    ensures Meaning(text, Pipe(l, r)) == Piped(Meaning(text, l), Meaning(text, r))
    ensures Meaning(text, List(l, r)) == Listed(Meaning(text, l), Meaning(text, r))
    ensures Meaning(text, Back(l)) == Backed(Meaning(text, l))
  {
  }

  lemma {:induction false} BacksParse(text: string, c: Cmd, n: nat, rest: seq<Token>)
    requires !Starts(rest, '&')
    ensures var b := Backs(c, seq(n, _ => Op('&')) + rest); b.1 == rest && Meaning(text, b.0) == InBack(Meaning(text, c), n)
    decreases n
  {
    var amps := seq(n, _ => Op('&'));
    if n == 0 {
      assert amps + rest == rest;
    } else {
      assert (amps + rest)[1..] == seq(n - 1, _ => Op('&')) + rest && (amps + rest)[0] == Op('&');
      BacksParse(text, Back(c), n - 1, rest);
    }
  }

  lemma AmpsStop(n: nat, rest: seq<Token>)
    requires Stops(rest) && !Starts(rest, '|')
    ensures Stops(seq(n, _ => Op('&')) + rest) && !Starts(seq(n, _ => Op('&')) + rest, '|')
  {
    if n == 0 {
      assert seq(n, _ => Op('&')) + rest == rest;
    } else {
      assert (seq(n, _ => Op('&')) + rest)[0] == Op('&');
    }
  }

  /** A line as it is typed parses to what it means, whatever closes it. */
  lemma {:induction false} LineParse(text: string, x: Src, ts: seq<Token>, rest: seq<Token>)
    requires Fits(x) && Reads(text, ts, Show(x)) && Closed(rest)
    ensures Parses(text, Line(ts + rest), SrcTree(x), rest)
    decreases x
  {
    hide Reads, Pipeline, Backs, Meaning;
    match x
    case Final(pipes, n) =>
      var p, q := ReadsSplit(text, ts, ShowPipes(pipes), Amps(n));
      ReadsAmps(text, q, n);
      AmpsStop(n, rest);
      PipesParse(text, pipes, p, q + rest);
      assert ts + rest == p + (q + rest);
      BacksParse(text, Pipeline(p + (q + rest)).value.0, n, rest);
    case Then(pipes, n, next) =>
      var p, q := ReadsSplit(text, ts, ShowPipes(pipes), Amps(n) + ([O(';')] + Show(next)));
      var amps, z := ReadsSplit(text, q, Amps(n), [O(';')] + Show(next));
      var semi, last := ReadsSplit(text, z, [O(';')], Show(next));
      ReadsAmps(text, amps, n);
      ReadsOp(text, semi, ';');
      var tail := [Op(';')] + (last + rest);
      AmpsStop(n, tail);
      PipesParse(text, pipes, p, amps + tail);
      assert ts + rest == p + (amps + tail) && tail[1..] == last + rest;
      BacksParse(text, Pipeline(p + (amps + tail)).value.0, n, tail);
      LineParse(text, next, last, rest);
      MeaningPipe(text, Backs(Pipeline(p + (amps + tail)).value.0, amps + tail).0, Line(last + rest).value.0);
  }

  // Whatever parses is a line as it is typed.

  /** The tokens that were used. */
  function Used(ts: seq<Token>, rest: seq<Token>): seq<Token> {
    if |rest| <= |ts| then ts[..|ts| - |rest|] else []
  }

  ghost predicate Suffix(ts: seq<Token>, rest: seq<Token>) { |rest| <= |ts| && ts == Used(ts, rest) + rest }

  lemma SuffixMore(p: seq<Token>, ts: seq<Token>, rest: seq<Token>)
    requires Suffix(ts, rest)
    ensures Suffix(p + ts, rest) && Used(p + ts, rest) == p + Used(ts, rest)
  {
    assert p + ts == (p + Used(ts, rest)) + rest;
  }

  lemma ToJoin(text: string, ts: seq<Token>, m: Mode, w: Span, rest: seq<Token>, more: seq<Target>)
    requires |ts| > 1 && ts[0] == Op(OpOf(m)) && ts[1] == Word(w)
    requires Suffix(ts[2..], rest) && Reads(text, Used(ts[2..], rest), ShowTos(more))
    ensures Suffix(ts, rest) && Reads(text, Used(ts, rest), ShowTos([Target(m, Text(text, w))] + more))
  {
    var p, to := [ts[0], ts[1]], Target(m, Text(text, w));
    assert ts == p + ts[2..] && ([to] + more)[1..] == more;
    SuffixMore(p, ts[2..], rest);
    assert Reads(text, p, ShowTo(to));
    hide Suffix, Used;
    ReadsJoin(text, p, Used(ts[2..], rest), ShowTo(to), ShowTos(more));
  }

  lemma {:induction false} RedirsSound(text: string, rs: seq<Redirect>, ts: seq<Token>) returns (tos: seq<Target>)
    requires Redirs(rs, ts).Some?
    ensures var r := Redirs(rs, ts).value;
            && Suffix(ts, r.1) && Reads(text, Used(ts, r.1), ShowTos(tos))
            && TargetsIn(text, r.0) == TargetsIn(text, rs) + tos
    decreases |ts|
  {
    if Starts(ts, '<') || Starts(ts, '>') || Starts(ts, '+') {
      var m, w := ModeOf(ts[0].c), ts[1].span;
      assert Redirs(rs, ts) == Redirs(rs + [Redirect(w, m)], ts[2..]);
      hide Redirs, Reads, Suffix, Used, TargetsIn;
      var more := RedirsSound(text, rs + [Redirect(w, m)], ts[2..]);
      var rest := Redirs(rs, ts).value.1;
      tos := [Target(m, Text(text, w))] + more;
      ToJoin(text, ts, m, w, rest, more);
      TargetsMore(text, rs, Redirect(w, m), more);
    } else {
      tos := [];
      assert Reads(text, Used(ts, ts), ShowTos([]));
      assert TargetsIn(text, rs) + [] == TargetsIn(text, rs);
    }
  }

  lemma TosMore(tos: seq<Target>, items: seq<Item>)
    ensures var all := Tos(tos) + items;
            if tos == [] then all == items else all != [] && all[0] == To(tos[0]) && all[1..] == Tos(tos[1..]) + items
  {
  }

  lemma {:induction false} ShowTosItems(tos: seq<Target>, items: seq<Item>)
    ensures var all := Tos(tos) + items;
            && ShowItems(all) == ShowTos(tos) + ShowItems(items)
            && WordsOf(all) == WordsOf(items) && TargetsOf(all) == tos + TargetsOf(items)
    decreases |tos|
  {
    hide ShowItems, WordsOf, TargetsOf, Tos, ShowTos;
    var all := Tos(tos) + items;
    TosMore(tos, items);
    if tos == [] {
      TosNone("", []);
    } else {
      ShowTosItems(tos[1..], items);
      ItemsUnfold(all);
      TosUnfold(tos);
      assert tos == [tos[0]] + tos[1..];
    }
  }

  function Tos(tos: seq<Target>): seq<Item> { seq(|tos|, i requires 0 <= i < |tos| => To(tos[i])) }

  lemma ItemsNext(argv: seq<Span>, rs: seq<Redirect>, ts: seq<Token>)
    requires Items(argv, rs, ts).Some?
    ensures Redirs(rs, ts).Some?
    ensures var rs1, ts1 := Redirs(rs, ts).value.0, Redirs(rs, ts).value.1;
            if Stops(ts1) then Items(argv, rs, ts) == Some((Wrap(Exec(argv), rs1), ts1))
            else && |ts1| <= |ts| && ts1[0].Word? && |argv| + 1 < MAXARGS
                 && Items(argv, rs, ts) == Items(argv + [ts1[0].span], rs1, ts1[1..])
  {
  }

  /** After the redirections at the front, a word or the end. */
  lemma {:induction false} ItemsSound(text: string, argv: seq<Span>, rs: seq<Redirect>, ts: seq<Token>) returns (items: seq<Item>)
    requires Items(argv, rs, ts).Some? && |argv| < MAXARGS
    ensures var r := Items(argv, rs, ts).value;
            && Suffix(ts, r.1) && Reads(text, Used(ts, r.1), ShowItems(items)) && |argv| + |WordsOf(items)| < MAXARGS
            && Meaning(text, r.0) == Under(Run(Texts(text, argv) + WordsOf(items)), TargetsIn(text, rs) + TargetsOf(items))
    decreases |ts|
  {
    hide Reads, Redirs, Args, Texts, TargetsIn, Meaning, Under, Suffix, Used, WordsOf, TargetsOf, ShowItems, ShowTos, Tos, Wrap;
    var tos := RedirsSound(text, rs, ts);
    var rs1, ts1 := Redirs(rs, ts).value.0, Redirs(rs, ts).value.1;
    ItemsNext(argv, rs, ts);
    var r := Items(argv, rs, ts).value;
    if Stops(ts1) {
      items := Tos(tos);
      ItemsOver(text, argv, rs1, tos);
    } else {
      var w := ts1[0].span;
      hide Items;
      var more := ItemsSound(text, argv + [w], rs1, ts1[1..]);
      items := Tos(tos) + ([Arg(Text(text, w))] + more);
      ItemsJoin(text, tos, w, more, ts, ts1, r.1);
      TextsMore(text, argv, w, WordsOf(more));
      assert TargetsIn(text, rs1) + TargetsOf(more) == TargetsIn(text, rs) + (tos + TargetsOf(more));
    }
  }

  lemma ItemsOver(text: string, argv: seq<Span>, rs: seq<Redirect>, tos: seq<Target>)
    ensures ShowItems(Tos(tos)) == ShowTos(tos) && WordsOf(Tos(tos)) == [] && TargetsOf(Tos(tos)) == tos
    ensures Meaning(text, Wrap(Exec(argv), rs)) == Under(Run(Texts(text, argv) + []), TargetsIn(text, rs))
  {
    ShowTosItems(tos, []);
    assert Tos(tos) + [] == Tos(tos) && ShowTos(tos) + [] == ShowTos(tos) && tos + [] == tos;
    MeaningWrap(text, Exec(argv), rs);
    assert Texts(text, argv) + [] == Texts(text, argv);
  }

  lemma WordJoin(text: string, w: Span, more: seq<Item>, ts: seq<Token>, rest: seq<Token>)
    requires ts != [] && ts[0] == Word(w) && Suffix(ts[1..], rest) && Reads(text, Used(ts[1..], rest), ShowItems(more))
    ensures Suffix(ts, rest) && Reads(text, Used(ts, rest), ShowItems([Arg(Text(text, w))] + more))
  {
    assert ([Arg(Text(text, w))] + more)[1..] == more && ts == [ts[0]] + ts[1..];
    SuffixMore([ts[0]], ts[1..], rest);
    assert Reads(text, [ts[0]], [W(Text(text, w))]);
    ReadsJoin(text, [ts[0]], Used(ts[1..], rest), [W(Text(text, w))], ShowItems(more));
  }

  lemma ItemsJoin(text: string, tos: seq<Target>, w: Span, more: seq<Item>, ts: seq<Token>, ts1: seq<Token>, rest: seq<Token>)
    requires Suffix(ts, ts1) && Reads(text, Used(ts, ts1), ShowTos(tos)) && ts1 != [] && ts1[0] == Word(w)
    requires Suffix(ts1[1..], rest) && Reads(text, Used(ts1[1..], rest), ShowItems(more))
    ensures var items := Tos(tos) + ([Arg(Text(text, w))] + more);
            && Suffix(ts, rest) && Reads(text, Used(ts, rest), ShowItems(items))
            && WordsOf(items) == [Text(text, w)] + WordsOf(more) && TargetsOf(items) == tos + TargetsOf(more)
  {
    var tail := [Arg(Text(text, w))] + more;
    WordJoin(text, w, more, ts1, rest);
    ItemsUnfold(tail);
    ShowTosItems(tos, tail);
    hide Reads, Suffix, Used, ShowItems, ShowTos, WordsOf, TargetsOf, Tos;
    UsedJoin(text, ts, ts1, rest, ShowTos(tos), ShowItems(tail));
    assert tail[1..] == more;
  }

  lemma {:induction false} PartSound(text: string, ts: seq<Token>) returns (x: Part)
    requires Simple(ts).Some?
    ensures var r := Simple(ts).value;
            && FitsPart(x) && Suffix(ts, r.1) && Reads(text, Used(ts, r.1), ShowPart(x)) && Meaning(text, r.0) == PartTree(x)
    decreases |ts|, 1
  {
    hide Reads, Line, Redirs, Meaning, Suffix, Used, Items, Args, Texts, TargetsIn, Under, WordsOf, TargetsOf, Wrap;
    if Starts(ts, '(') {
      var r := Line(ts[1..]).value;
      var line := LineSound(text, ts[1..]);
      var tail := r.1[1..];
      var tos := RedirsSound(text, [], tail);
      var rs, rest := Redirs([], tail).value.0, Redirs([], tail).value.1;
      x := Group(line, tos);
      assert r.1 == [Op(')')] + tail;
      SuffixIs(ts[1..], r.1);
      GroupJoin(text, ts, Used(ts[1..], r.1), tail, rest, Show(line), ShowTos(tos));
      MeaningWrap(text, r.0, rs);
      NoTargets(text, tos);
    } else {
      SimpleItems(ts);
      var items := ItemsSound(text, [], [], ts);
      x := Plain(items);
      NoTargets(text, TargetsOf(items));
      NoTexts(text, WordsOf(items));
    }
  }

  lemma SuffixIs(ts: seq<Token>, rest: seq<Token>)
    requires Suffix(ts, rest)
    ensures ts == Used(ts, rest) + rest
  {
  }

  lemma SimpleItems(ts: seq<Token>)
    requires !Starts(ts, '(')
    ensures Simple(ts) == Items([], [], ts)
  {
  }

  lemma NoTargets(text: string, tos: seq<Target>)
    ensures TargetsIn(text, []) + tos == tos
  {
  }

  lemma NoTexts(text: string, ws: seq<string>)
    ensures Texts(text, []) + ws == ws
  {
  }

  lemma GroupJoin(text: string, ts: seq<Token>, inner: seq<Token>, tail: seq<Token>, rest: seq<Token>, a: seq<Symbol>, b: seq<Symbol>)
    requires Starts(ts, '(') && ts[1..] == inner + ([Op(')')] + tail) && Reads(text, inner, a)
    requires Suffix(tail, rest) && Reads(text, Used(tail, rest), b)
    ensures Suffix(ts, rest) && Reads(text, Used(ts, rest), Parens(a) + b)
  {
    var p := [Op('(')] + inner + [Op(')')];
    assert ts == p + tail;
    SuffixMore(p, tail, rest);
    ReadsJoin(text, [Op('(')], inner, [O('(')], a);
    ReadsJoin(text, [Op('(')] + inner, [Op(')')], [O('(')] + a, [O(')')]);
    ReadsJoin(text, p, Used(tail, rest), Parens(a), b);
  }

  /** First, an operator, and then the rest. */
  lemma OpJoin(text: string, ts: seq<Token>, mid: seq<Token>, rest: seq<Token>, c: char, a: seq<Symbol>, b: seq<Symbol>)
    requires Suffix(ts, mid) && Reads(text, Used(ts, mid), a) && Starts(mid, c)
    requires Suffix(mid[1..], rest) && Reads(text, Used(mid[1..], rest), b)
    ensures Suffix(ts, rest) && Reads(text, Used(ts, rest), a + ([O(c)] + b))
  {
    assert mid == [Op(c)] + mid[1..];
    SuffixMore([Op(c)], mid[1..], rest);
    ReadsJoin(text, [Op(c)], Used(mid[1..], rest), [O(c)], b);
    SuffixMore(Used(ts, mid), mid, rest);
    ReadsJoin(text, Used(ts, mid), Used(mid, rest), a, [O(c)] + b);
  }

  lemma {:induction false} PipesSound(text: string, ts: seq<Token>) returns (x: Pipes)
    requires Pipeline(ts).Some?
    ensures var r := Pipeline(ts).value;
            && FitsPipes(x) && Suffix(ts, r.1) && Reads(text, Used(ts, r.1), ShowPipes(x)) && Meaning(text, r.0) == PipesTree(x)
    decreases |ts|, 2
  {
    hide Reads, Simple, Meaning, Suffix, Used;
    var part := PartSound(text, ts);
    var r := Simple(ts).value;
    if Starts(r.1, '|') {
      var more := PipesSound(text, r.1[1..]);
      var q := Pipeline(r.1[1..]).value;
      x := Piping(part, more);
      OpJoin(text, ts, r.1, q.1, '|', ShowPart(part), ShowPipes(more));
      MeaningPipe(text, r.0, q.0);
    } else {
      x := Last(part);
    }
  }

  lemma InBackMore(t: Tree, n: nat)
    requires n > 0
    ensures InBack(t, n) == InBack(Backed(t), n - 1)
  {
  }

  lemma AmpJoin(text: string, ts: seq<Token>, rest: seq<Token>, k: nat)
    requires ts != [] && ts[0] == Op('&') && Suffix(ts[1..], rest) && Reads(text, Used(ts[1..], rest), Amps(k))
    ensures Suffix(ts, rest) && Reads(text, Used(ts, rest), Amps(k + 1))
  {
    assert ts == [Op('&')] + ts[1..];
    SuffixMore([Op('&')], ts[1..], rest);
    ReadsJoin(text, [Op('&')], Used(ts[1..], rest), [O('&')], Amps(k));
    assert [O('&')] + Amps(k) == Amps(k + 1);
  }

  lemma {:induction false} BacksSound(text: string, c: Cmd, ts: seq<Token>) returns (n: nat)
    ensures var b := Backs(c, ts);
            && Suffix(ts, b.1) && Reads(text, Used(ts, b.1), Amps(n)) && Meaning(text, b.0) == InBack(Meaning(text, c), n)
    decreases |ts|
  {
    if Starts(ts, '&') {
      assert Backs(c, ts) == Backs(Back(c), ts[1..]) && ts == [Op('&')] + ts[1..];
      hide Backs, Reads, Suffix, Used, Meaning, InBack;
      var k := BacksSound(text, Back(c), ts[1..]);
      n := k + 1;
      MeaningPipe(text, c, c);
      AmpJoin(text, ts, Backs(c, ts).1, k);
      InBackMore(Meaning(text, c), n);
    } else {
      n := 0;
      assert Reads(text, Used(ts, ts), Amps(0));
    }
  }

  lemma UsedJoin(text: string, ts: seq<Token>, mid: seq<Token>, rest: seq<Token>, a: seq<Symbol>, b: seq<Symbol>)
    requires Suffix(ts, mid) && Reads(text, Used(ts, mid), a) && Suffix(mid, rest) && Reads(text, Used(mid, rest), b)
    ensures Suffix(ts, rest) && Reads(text, Used(ts, rest), a + b)
  {
    SuffixMore(Used(ts, mid), mid, rest);
    ReadsJoin(text, Used(ts, mid), Used(mid, rest), a, b);
  }

  lemma {:induction false} LineSound(text: string, ts: seq<Token>) returns (x: Src)
    requires Line(ts).Some?
    ensures var r := Line(ts).value;
            && Fits(x) && Suffix(ts, r.1) && Reads(text, Used(ts, r.1), Show(x)) && Meaning(text, r.0) == SrcTree(x)
    decreases |ts|, 3
  {
    hide Reads, Pipeline, Backs, Meaning, Suffix, Used;
    var pipes := PipesSound(text, ts);
    var r := Pipeline(ts).value;
    var n := BacksSound(text, r.0, r.1);
    var b := Backs(r.0, r.1);
    UsedJoin(text, ts, r.1, b.1, ShowPipes(pipes), Amps(n));
    if Starts(b.1, ';') {
      var next := LineSound(text, b.1[1..]);
      var q := Line(b.1[1..]).value;
      x := Then(pipes, n, next);
      OpJoin(text, ts, b.1, q.1, ';', ShowPipes(pipes) + Amps(n), Show(next));
      assert Show(x) == ShowPipes(pipes) + Amps(n) + ([O(';')] + Show(next));
      MeaningPipe(text, b.0, q.0);
    } else {
      x := Final(pipes, n);
    }
  }

  /** The text is a command exactly if its tokens are those of a line as it is
      typed, and then it means that line. */
  lemma CommandIff(text: string)
    ensures Command(text).Some? <==> exists x :: Fits(x) && Reads(text, Tokens(text, 0), Show(x))
  {
    hide Reads, Line, Meaning, Tokens;
    var ts := Tokens(text, 0);
    if Command(text).Some? {
      var x := LineSound(text, ts);
      assert Used(ts, []) == ts;
    }
    if x :| Fits(x) && Reads(text, ts, Show(x)) {
      CommandMeans(text, x);
    }
  }

  lemma CommandMeans(text: string, x: Src)
    requires Fits(x) && Reads(text, Tokens(text, 0), Show(x))
    ensures Command(text).Some? && Meaning(text, Command(text).value) == SrcTree(x)
  {
    hide Reads, Line, Meaning, Tokens;
    LineParse(text, x, Tokens(text, 0), []);
    assert Tokens(text, 0) + [] == Tokens(text, 0);
  }

  // The text of a line, with any space between its tokens.

  function SymbolText(y: Symbol): string {
    if y.W? then y.word else if y.c == '+' then ">>" else [y.c]
  }

  predicate IsWord(w: string) { w != "" && forall i | 0 <= i < |w| :: IsWordChar(w[i]) }

  predicate IsTyped(y: Symbol) {
    if y.W? then IsWord(y.word) else IsSymbol(y.c) || y.c == '+'
  }

  predicate IsGap(s: string) { forall i | 0 <= i < |s| :: IsSpace(s[i]) }

  /** Two tokens that need space between them. */
  predicate Joins(y: Symbol, z: Symbol) { (y.W? && z.W?) || (y == O('>') && (z == O('>') || z == O('+'))) }

  ghost predicate Legal(ss: seq<Symbol>, gaps: seq<string>) {
    && |gaps| == |ss| + 1 && (forall i | 0 <= i < |gaps| :: IsGap(gaps[i])) && (forall i | 0 <= i < |ss| :: IsTyped(ss[i]))
    && (forall i | 0 < i < |ss| && Joins(ss[i - 1], ss[i]) :: gaps[i] != "")
  }

  function Spaced(ss: seq<Symbol>, gaps: seq<string>): string
    requires |gaps| == |ss| + 1
  {
    if ss == [] then gaps[0] else gaps[0] + (SymbolText(ss[0]) + Spaced(ss[1..], gaps[1..]))
  }

  lemma {:induction false} SkipGap(text: string, ps: nat, gap: string)
    requires ps + |gap| <= |text| && text[ps..ps + |gap|] == gap && IsGap(gap)
    requires ps + |gap| == |text| || !IsSpace(text[ps + |gap|])
    ensures Skip(text, ps) == ps + |gap|
    decreases |gap|
  {
    if gap != "" {
      assert text[ps] == text[ps..ps + |gap|][0] == gap[0];
      assert text[ps + 1..ps + |gap|] == text[ps..ps + |gap|][1..] == gap[1..];
      SkipGap(text, ps + 1, gap[1..]);
    }
  }

  lemma {:induction false} WordEndAt(text: string, s: nat, n: nat)
    requires s + n <= |text| && (forall i | s <= i < s + n :: IsWordChar(text[i])) && (s + n < |text| ==> !IsWordChar(text[s + n]))
    ensures WordEnd(text, s) == s + n
    decreases n
  {
    if n > 0 {
      WordEndAt(text, s + 1, n - 1);
    }
  }

  /** What may come right after a token. */
  predicate Follows(y: Symbol, c: char) { (y.W? ==> !IsWordChar(c)) && (y == O('>') ==> c != '>') }

  lemma LexOne(text: string, s: nat, y: Symbol)
    requires IsTyped(y) && s + |SymbolText(y)| <= |text| && text[s..s + |SymbolText(y)|] == SymbolText(y)
    requires Follows(y, At(text, s + |SymbolText(y)|))
    ensures s < |text| && !IsSpace(text[s]) && TokenEnd(text, s) == s + |SymbolText(y)| && ReadsAs(text, TokenAt(text, s), y)
  {
    var t := SymbolText(y);
    assert forall i | 0 <= i < |t| :: text[s + i] == text[s..s + |t|][i] == t[i];
    if y.W? {
      assert text[s + 0] == t[0] && IsWordChar(t[0]);
      assert forall i | s <= i < s + |t| :: text[i] == t[i - s];
      WordEndAt(text, s, |t|);
    } else {
      assert text[s + 0] == t[0];
      if y.c == '+' {
        assert text[s + 1] == t[1];
      }
    }
  }

  lemma FirstChar(y: Symbol)
    requires IsTyped(y)
    ensures SymbolText(y) != "" && !IsSpace(SymbolText(y)[0]) && SymbolText(y)[0] != '\0'
    ensures IsWordChar(SymbolText(y)[0]) ==> y.W?
    ensures SymbolText(y)[0] == '>' ==> y == O('>') || y == O('+')
  {
  }

  /** The first character of a text that is laid out like this. */
  lemma SpacedStarts(ss: seq<Symbol>, gaps: seq<string>)
    requires Legal(ss, gaps)
    ensures var t := Spaced(ss, gaps);
            if gaps[0] != "" then t != "" && IsSpace(t[0])
            else if ss == [] then t == ""
            else t != "" && t[0] == SymbolText(ss[0])[0]
  {
    if ss != [] {
      FirstChar(ss[0]);
    }
  }

  lemma {:induction false} LexSpaced(text: string, ps: nat, ss: seq<Symbol>, gaps: seq<string>)
    requires ps <= |text| && Legal(ss, gaps) && text[ps..] == Spaced(ss, gaps)
    ensures Reads(text, Tokens(text, ps), ss)
    decreases |ss|
  {
    hide Reads, Skip, WordEnd, TokenAt, TokenEnd, SymbolText;
    var gap := gaps[0];
    var s := ps + |gap|;
    if ss == [] {
      SkipGap(text, ps, gap);
      ReadsEmpty(text);
    } else {
      var e := s + |SymbolText(ss[0])|;
      SpacedSplit(text, ps, ss, gaps);
      FollowsNext(text, e, ss, gaps);
      hide Spaced, Legal;
      LexOne(text, s, ss[0]);
      SkipGap(text, ps, gap);
      LexSpaced(text, e, ss[1..], gaps[1..]);
      ReadsCons(text, TokenAt(text, s), Tokens(text, e), ss);
    }
  }

  lemma SpacedSplit(text: string, ps: nat, ss: seq<Symbol>, gaps: seq<string>)
    requires ps <= |text| && Legal(ss, gaps) && ss != [] && text[ps..] == Spaced(ss, gaps)
    ensures var s := ps + |gaps[0]|;
            var e := s + |SymbolText(ss[0])|;
            && e <= |text| && text[ps..s] == gaps[0] && text[s..e] == SymbolText(ss[0])
            && text[e..] == Spaced(ss[1..], gaps[1..]) && Legal(ss[1..], gaps[1..]) && IsGap(gaps[0]) && IsTyped(ss[0])
  {
    var g, t, rest := gaps[0], SymbolText(ss[0]), Spaced(ss[1..], gaps[1..]);
    assert text[ps..] == g + (t + rest);
    assert text[ps..][..|g|] == g && text[ps..][|g|..][..|t|] == t && text[ps..][|g|..][|t|..] == rest;
  }

  lemma FollowsNext(text: string, e: nat, ss: seq<Symbol>, gaps: seq<string>)
    requires Legal(ss, gaps) && ss != [] && e <= |text| && text[e..] == Spaced(ss[1..], gaps[1..])
    ensures Follows(ss[0], At(text, e))
  {
    assert Legal(ss[1..], gaps[1..]);
    SpacedStarts(ss[1..], gaps[1..]);
    assert e < |text| ==> text[e] == text[e..][0];
    if |ss| > 1 {
      FirstChar(ss[1]);
      assert Joins(ss[0], ss[1]) ==> gaps[1] != "";
    }
  }

  lemma ReadsEmpty(text: string)
    ensures Reads(text, [], [])
  {
  }

  lemma ReadsCons(text: string, tok: Token, ts: seq<Token>, ss: seq<Symbol>)
    requires ss != [] && ReadsAs(text, tok, ss[0]) && Reads(text, ts, ss[1..])
    ensures Reads(text, [tok] + ts, ss)
  {
  }

  /** A line as it is typed, with any space between its tokens, is parsed to what
      it means. */
  lemma TypedParses(x: Src, gaps: seq<string>)
    requires Fits(x) && Legal(Show(x), gaps)
    ensures var text := Spaced(Show(x), gaps); Command(text).Some? && Meaning(text, Command(text).value) == SrcTree(x)
  {
    hide Reads, Tokens, Meaning, Command;
    var text := Spaced(Show(x), gaps);
    assert text[0..] == text;
    LexSpaced(text, 0, Show(x), gaps);
    CommandMeans(text, x);
  }

  // Every command can be typed.

  /** The fully parenthesised form. */
  function SrcOf(t: Tree): Src {
    match t
    case Run(ws) => Final(Last(Plain(seq(|ws|, i requires 0 <= i < |ws| => Arg(ws[i])))), 0)
    case Redirected(t1, f, m) => Final(Last(Group(SrcOf(t1), [Target(m, f)])), 0)
    case Piped(l, r) => Final(Piping(Group(SrcOf(l), []), Last(Group(SrcOf(r), []))), 0)
    case Listed(l, r) => Then(Last(Group(SrcOf(l), [])), 0, Final(Last(Group(SrcOf(r), [])), 0))
    case Backed(t1) => Final(Last(Group(SrcOf(t1), [])), 1)
  }

  /** At most 9 words to a command, all of them words. */
  predicate IsTree(t: Tree) {
    match t
    case Run(ws) => |ws| < MAXARGS && forall w | w in ws :: IsWord(w)
    case Redirected(t1, f, m) => IsTree(t1) && IsWord(f)
    case Piped(l, r) => IsTree(l) && IsTree(r)
    case Listed(l, r) => IsTree(l) && IsTree(r)
    case Backed(t1) => IsTree(t1)
  }

  lemma {:induction false} ArgItems(ws: seq<string>)
    ensures var items := seq(|ws|, i requires 0 <= i < |ws| => Arg(ws[i]));
            && WordsOf(items) == ws && TargetsOf(items) == []
            && forall y | y in ShowItems(items) :: y.W? && y.word in ws
  {
    if ws != [] {
      var items := seq(|ws|, i requires 0 <= i < |ws| => Arg(ws[i]));
      ArgItems(ws[1..]);
      assert items[1..] == seq(|ws[1..]|, i requires 0 <= i < |ws[1..]| => Arg(ws[1..][i]));
    }
  }

  lemma GroupTree(t: Tree, tos: seq<Target>)
    requires SrcTree(SrcOf(t)) == t && Fits(SrcOf(t)) && |tos| <= 1 && AllTyped(Show(SrcOf(t)))
    requires forall to | to in tos :: IsWord(to.file)
    ensures PartTree(Group(SrcOf(t), tos)) == if tos == [] then t else Redirected(t, tos[0].file, tos[0].mode)
    ensures FitsPart(Group(SrcOf(t), tos)) && AllTyped(ShowPart(Group(SrcOf(t), tos)))
  {
    if tos != [] {
      assert tos[1..] == [] && ShowTos(tos) == ShowTo(tos[0]) + [];
      assert Under(t, tos) == Redirected(t, tos[0].file, tos[0].mode) by {
        assert Under(t, tos) == Under(Redirected(t, tos[0].file, tos[0].mode), []);
      }
    }
  }

  ghost predicate AllTyped(ss: seq<Symbol>) { forall y | y in ss :: IsTyped(y) }

  lemma OneLine(x: Part, n: nat)
    requires FitsPart(x) && AllTyped(ShowPart(x)) && n <= 1
    ensures var l := Final(Last(x), n);
            SrcTree(l) == (if n == 0 then PartTree(x) else Backed(PartTree(x))) && Fits(l) && AllTyped(Show(l))
  {
    assert InBack(Backed(PartTree(x)), 0) == Backed(PartTree(x));
  }

  lemma OnePipe(x: Part, y: Part)
    requires FitsPart(x) && FitsPart(y) && AllTyped(ShowPart(x)) && AllTyped(ShowPart(y))
    ensures var l := Final(Piping(x, Last(y)), 0);
            SrcTree(l) == Piped(PartTree(x), PartTree(y)) && Fits(l) && AllTyped(Show(l))
  {
    assert ShowPipes(Last(y)) == ShowPart(y) && PipesTree(Last(y)) == PartTree(y) && FitsPipes(Last(y));
    hide ShowPart, PartTree, FitsPart;
  }

  lemma OneList(x: Part, y: Part)
    requires FitsPart(x) && FitsPart(y) && AllTyped(ShowPart(x)) && AllTyped(ShowPart(y))
    ensures var l := Then(Last(x), 0, Final(Last(y), 0));
            SrcTree(l) == Listed(PartTree(x), PartTree(y)) && Fits(l) && AllTyped(Show(l))
  {
    OneLine(y, 0);
    hide ShowPart, PartTree, FitsPart;
    assert ShowPipes(Last(x)) == ShowPart(x) && PipesTree(Last(x)) == PartTree(x) && FitsPipes(Last(x));
  }

  lemma PlainTree(ws: seq<string>)
    requires |ws| < MAXARGS && forall w | w in ws :: IsWord(w)
    ensures var x := Plain(seq(|ws|, i requires 0 <= i < |ws| => Arg(ws[i])));
            PartTree(x) == Run(ws) && FitsPart(x) && AllTyped(ShowPart(x))
  {
    ArgItems(ws);
  }

  lemma {:induction false} SrcOfTree(t: Tree)
    requires IsTree(t)
    ensures SrcTree(SrcOf(t)) == t && Fits(SrcOf(t)) && AllTyped(Show(SrcOf(t)))
  {
    hide ShowPart, ShowPipes, PartTree, PipesTree, FitsPart, FitsPipes, InBack, Amps;
    match t
    case Run(ws) =>
      PlainTree(ws);
      OneLine(Plain(seq(|ws|, i requires 0 <= i < |ws| => Arg(ws[i]))), 0);
    case Redirected(t1, f, m) =>
      SrcOfTree(t1);
      GroupTree(t1, [Target(m, f)]);
      OneLine(Group(SrcOf(t1), [Target(m, f)]), 0);
    case Piped(l, r) =>
      SrcOfTree(l);
      SrcOfTree(r);
      GroupTree(l, []);
      GroupTree(r, []);
      OnePipe(Group(SrcOf(l), []), Group(SrcOf(r), []));
    case Listed(l, r) =>
      SrcOfTree(l);
      SrcOfTree(r);
      GroupTree(l, []);
      GroupTree(r, []);
      OneList(Group(SrcOf(l), []), Group(SrcOf(r), []));
    case Backed(t1) =>
      SrcOfTree(t1);
      GroupTree(t1, []);
      OneLine(Group(SrcOf(t1), []), 1);
  }

  function Print(t: Tree): string { Spaced(Show(SrcOf(t)), seq(|Show(SrcOf(t))| + 1, _ => " ")) }

  /** parsecmd(print(t)) rebuilds t. */
  lemma RoundTrip(t: Tree)
    requires IsTree(t)
    ensures Command(Print(t)).Some? && Meaning(Print(t), Command(Print(t)).value) == t
  {
    hide Meaning, Command;
    SrcOfTree(t);
    TypedParses(SrcOf(t), seq(|Show(SrcOf(t))| + 1, _ => " "));
  }

  // nulterminate.

  function Ends(c: Cmd): set<nat> {
    match c
    case Exec(argv) => set w | w in argv :: w.eq
    case Redir(c1, to) => Ends(c1) + {to.file.eq}
    case Pipe(l, r) => Ends(l) + Ends(r)
    case List(l, r) => Ends(l) + Ends(r)
    case Back(c1) => Ends(c1)
  }

  /** Exactly the bytes after the tokens become zero. */
  method NulTerminate(buf: array<char>, c: Cmd, ghost text: string)
    requires buf.Length == |text| + 1 && SpansOk(text, c)
    modifies buf
    ensures forall i | 0 <= i < buf.Length :: buf[i] == if i in Ends(c) then '\0' else old(buf[i])
    decreases c
  {
    match c {
      case Exec(argv) =>
        var i := 0;
        while i < |argv|
          invariant 0 <= i <= |argv|
          invariant forall k | 0 <= k < buf.Length :: buf[k] == if EndsBefore(argv, i, k) then '\0' else old(buf[k])
        {
          assert SpanOk(text, argv[i]);
          buf[argv[i].eq] := '\0';
          i := i + 1;
        }
        assert forall k: nat :: EndsBefore(argv, |argv|, k) <==> k in Ends(c);
      case Redir(c1, to) =>
        NulTerminate(buf, c1, text);
        buf[to.file.eq] := '\0';
      case Pipe(l, r) =>
        NulTerminate(buf, l, text);
        NulTerminate(buf, r, text);
      case List(l, r) =>
        NulTerminate(buf, l, text);
        NulTerminate(buf, r, text);
      case Back(c1) =>
        NulTerminate(buf, c1, text);
    }
  }

  ghost predicate EndsBefore(argv: seq<Span>, i: nat, k: nat) {
    exists j | 0 <= j < i && j < |argv| :: argv[j].eq == k
  }

  /** The string that starts at q. */
  function CString(buf: seq<char>, q: nat): string
    decreases |buf| - q
  {
    if q >= |buf| || buf[q] == '\0' then "" else [buf[q]] + CString(buf, q + 1)
  }

  function CStrings(buf: seq<char>, argv: seq<Span>): seq<string> {
    seq(|argv|, i requires 0 <= i < |argv| => CString(buf, argv[i].q))
  }

  /** What runcmd sees: each word is the string at its start. */
  function Seen(buf: seq<char>, c: Cmd): Tree {
    match c
    case Exec(argv) => Run(CStrings(buf, argv))
    case Redir(c1, to) => Redirected(Seen(buf, c1), CString(buf, to.file.q), to.mode)
    case Pipe(l, r) => Piped(Seen(buf, l), Seen(buf, r))
    case List(l, r) => Listed(Seen(buf, l), Seen(buf, r))
    case Back(c1) => Backed(Seen(buf, c1))
  }

  /** The buffer is the text with zero bytes at some places after tokens. */
  ghost predicate Nulled(text: string, buf: seq<char>, ends: set<nat>) {
    && |buf| == |text| + 1
    && (forall i | 0 <= i < |text| && i !in ends :: buf[i] == text[i])
    && (forall i | 0 <= i <= |text| && i in ends :: buf[i] == '\0')
    && (forall e | e in ends :: e < |text| ==> !IsWordChar(text[e]))
  }

  lemma {:induction false} CStringIs(text: string, buf: seq<char>, ends: set<nat>, q: nat, eq: nat)
    requires Nulled(text, buf, ends) && q <= eq <= |text| && eq in ends && forall i | q <= i < eq :: IsWordChar(text[i])
    ensures CString(buf, q) == text[q..eq]
    decreases eq - q
  {
    if q < eq {
      CStringIs(text, buf, ends, q + 1, eq);
      assert text[q..eq] == [text[q]] + text[q + 1..eq];
    }
  }

  lemma {:induction false} SeenIs(text: string, buf: seq<char>, ends: set<nat>, c: Cmd)
    requires Nulled(text, buf, ends) && SpansOk(text, c) && Ends(c) <= ends
    ensures Seen(buf, c) == Meaning(text, c)
  {
    match c
    case Exec(argv) =>
      forall i | 0 <= i < |argv| ensures CString(buf, argv[i].q) == Text(text, argv[i]) {
        assert argv[i] in argv && argv[i].eq in Ends(c);
        CStringIs(text, buf, ends, argv[i].q, argv[i].eq);
      }
    case Redir(c1, to) =>
      SeenIs(text, buf, ends, c1);
      CStringIs(text, buf, ends, to.file.q, to.file.eq);
    case Pipe(l, r) =>
      SeenIs(text, buf, ends, l);
      SeenIs(text, buf, ends, r);
    case List(l, r) =>
      SeenIs(text, buf, ends, l);
      SeenIs(text, buf, ends, r);
    case Back(c1) =>
      SeenIs(text, buf, ends, c1);
  }

  lemma {:induction false} EndsAreNoWords(text: string, c: Cmd)
    requires SpansOk(text, c)
    ensures forall e | e in Ends(c) :: e <= |text| && (e < |text| ==> !IsWordChar(text[e]))
  {
    match c
    case Exec(argv) =>
    case Redir(c1, to) => EndsAreNoWords(text, c1);
    case Pipe(l, r) => EndsAreNoWords(text, l); EndsAreNoWords(text, r);
    case List(l, r) => EndsAreNoWords(text, l); EndsAreNoWords(text, r);
    case Back(c1) => EndsAreNoWords(text, c1);
  }

  /** parsecmd: what is run is what was parsed. */
  method ParseAndTerminate(buf: array<char>, text: string) returns (r: Option<Cmd>)
    requires IsText(text) && buf[..] == text + ['\0']
    modifies buf
    ensures r == Command(text)
    ensures r.Some? ==> Seen(buf[..], r.value) == Meaning(text, r.value)
  {
    r := ParseCmd(text);
    if r.Some? {
      assert forall i | 0 <= i < |text| :: buf[i] == buf[..][i] == text[i];
      NulTerminate(buf, r.value, text);
      EndsAreNoWords(text, r.value);
      hide SpansOk, Ends;
      assert Nulled(text, buf[..], Ends(r.value));
      SeenIs(text, buf[..], Ends(r.value), r.value);
    }
  }
}
