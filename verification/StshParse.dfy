/**
  The shell's parser: one pass over the tokens builds a pipeline or stops at the first error.
  Items give an independent reading of a line; the parser is shown to agree with it.
 */
module StshParse {
  import opened Bytes
  import opened Words
  import opened StshLex

  datatype Pipeline = Pipeline(commands: seq<seq<Str>>, input: Str, output: Str, background: bool)

  datatype Error = NoCommandBeforeBar | NoInputFile | NoOutputFile | AmpersandNotLast | NoCommand

  datatype Result = Ok(pipeline: Pipeline) | Err(error: Error)

  const EMPTY := Pipeline([], [], [], false)

  predicate IsOperator(t: Str) {
    t == [BAR] || t == [LESS] || t == [GREATER] || t == [AMPERSAND]
  }

  // The rest of the pass from token i on, with stage `current` under construction.
  function Parse(ts: seq<Str>, i: nat, current: seq<Str>, p: Pipeline): Result
    requires i <= |ts|
    decreases |ts| - i
  {
    if i == |ts| then Finish(current, p)
    else if ts[i] == [BAR] then
      if current == [] then Err(NoCommandBeforeBar)
      else Parse(ts, i + 1, [], p.(commands := p.commands + [current]))
    else if ts[i] == [LESS] then
      if i + 1 == |ts| || IsOperator(ts[i + 1]) then Err(NoInputFile)
      else Parse(ts, i + 2, current, p.(input := ts[i + 1]))
    else if ts[i] == [GREATER] then
      if i + 1 == |ts| || IsOperator(ts[i + 1]) then Err(NoOutputFile)
      else Parse(ts, i + 2, current, p.(output := ts[i + 1]))
    else if ts[i] == [AMPERSAND] then
      if i + 1 != |ts| then Err(AmpersandNotLast) else Parse(ts, i + 1, current, p.(background := true))
    else Parse(ts, i + 1, current + [ts[i]], p)
  }

  function Finish(current: seq<Str>, p: Pipeline): Result {
    var q := if current == [] then p else p.(commands := p.commands + [current]);
    if q.commands == [] && (q.input != [] || q.output != []) then Err(NoCommand) else Ok(q)
  }

  /** parsePipeline: the loop over the tokens. */
  method ParsePipeline(line: Str) returns (result: Result)
    ensures result == Parse(LexOf(line), 0, [], EMPTY)
  {
    hide LexOf;
    var tokens := Lex(line);
    var current: seq<Str> := [];
    var p := EMPTY;
    var i := 0;
    while i < |tokens|
      invariant i <= |tokens|
      invariant Parse(tokens, 0, [], EMPTY) == Parse(tokens, i, current, p)
    {
      var t := tokens[i];
      if t == [BAR] {
        if current == [] {
          return Err(NoCommandBeforeBar);
        }
        p := p.(commands := p.commands + [current]);
        current := [];
      } else if t == [LESS] {
        if i + 1 >= |tokens| || IsOperator(tokens[i + 1]) {
          return Err(NoInputFile);
        }
        i := i + 1;
        p := p.(input := tokens[i]);
      } else if t == [GREATER] {
        if i + 1 >= |tokens| || IsOperator(tokens[i + 1]) {
          return Err(NoOutputFile);
        }
        i := i + 1;
        p := p.(output := tokens[i]);
      } else if t == [AMPERSAND] {
        if i + 1 != |tokens| {
          return Err(AmpersandNotLast);
        }
        p := p.(background := true);
      } else {
        current := current + [t];
      }
      i := i + 1;
    }
    if current != [] {
      p := p.(commands := p.commands + [current]);
    }
    if p.commands == [] && (p.input != [] || p.output != []) {
      return Err(NoCommand);
    }
    result := Ok(p);
  }

  // ------------------------------------------------------------ the grammar

  datatype Item = Bar | In(name: Str) | Out(name: Str) | Amp | Word(word: Str)

  predicate PlainToken(t: Str) {
    t != [] && !IsOperator(t)
  }

  predicate ItemOk(x: Item) {
    match x
    case In(name) => PlainToken(name)
    case Out(name) => PlainToken(name)
    case Word(word) => PlainToken(word)
    case _ => true
  }

  function TokensOf(x: Item): seq<Str> {
    match x
    case Bar => [[BAR]]
    case In(name) => [[LESS], name]
    case Out(name) => [[GREATER], name]
    case Amp => [[AMPERSAND]]
    case Word(word) => [word]
  }

  function Flat(xs: seq<Item>): seq<Str> {
    if xs == [] then [] else Flat(xs[..|xs| - 1]) + TokensOf(xs[|xs| - 1])
  }

  // The words between the bars; there is always a last stage, perhaps empty.
  function Stages(xs: seq<Item>): (r: seq<seq<Str>>)
    ensures r != []
  {
    if xs == [] then [[]]
    else
      var front, x := Stages(xs[..|xs| - 1]), xs[|xs| - 1];
      match x
      case Bar => front + [[]]
      case Word(word) => front[..|front| - 1] + [front[|front| - 1] + [word]]
      case _ => front
  }

  function LastIn(xs: seq<Item>): Str {
    if xs == [] then [] else if xs[|xs| - 1].In? then xs[|xs| - 1].name else LastIn(xs[..|xs| - 1])
  }

  function LastOut(xs: seq<Item>): Str {
    if xs == [] then [] else if xs[|xs| - 1].Out? then xs[|xs| - 1].name else LastOut(xs[..|xs| - 1])
  }

  function WithoutEmptyLast(stages: seq<seq<Str>>): seq<seq<Str>>
    requires stages != []
  {
    if stages[|stages| - 1] == [] then stages[..|stages| - 1] else stages
  }

  function Meaning(xs: seq<Item>): Pipeline {
    Pipeline(WithoutEmptyLast(Stages(xs)), LastIn(xs), LastOut(xs), Amp in xs)
  }

  // Every bar has a command before it and & comes last.
  predicate Shape(xs: seq<Item>) {
    && (forall x :: x in xs ==> ItemOk(x))
    && (forall k :: 0 <= k < |Stages(xs)| - 1 ==> Stages(xs)[k] != [])
    && (forall k :: 0 <= k < |xs| - 1 ==> xs[k] != Amp)
  }

  predicate HasFile(xs: seq<Item>) {
    exists k :: 0 <= k < |xs| && (xs[k].In? || xs[k].Out?)
  }

  predicate HasWord(xs: seq<Item>) {
    exists k :: 0 <= k < |xs| && xs[k].Word?
  }

  // A line the shell accepts: redirections need a command somewhere.
  predicate WellFormed(xs: seq<Item>) {
    && Shape(xs)
    && (HasFile(xs) ==> HasWord(xs))
  }

  // Where the pass stands after the first k items.
  predicate Reached(xs: seq<Item>, current: seq<Str>, p: Pipeline) {
    Stages(xs) == p.commands + [current] && p.input == LastIn(xs) && p.output == LastOut(xs) &&
      p.background == (Amp in xs)
  }

  lemma {:induction false} FlatGrows(xs: seq<Item>, x: Item)
    ensures Flat(xs + [x]) == Flat(xs) + TokensOf(x)
  {
    assert (xs + [x])[..|xs|] == xs;
  }

  lemma Grows(xs: seq<Item>, x: Item)
    ensures Stages(xs + [x]) == match x
      case Bar => Stages(xs) + [[]]
      case Word(word) => Stages(xs)[..|Stages(xs)| - 1] + [Stages(xs)[|Stages(xs)| - 1] + [word]]
      case _ => Stages(xs)
    ensures LastIn(xs + [x]) == if x.In? then x.name else LastIn(xs)
    ensures LastOut(xs + [x]) == if x.Out? then x.name else LastOut(xs)
    ensures (Amp in xs + [x]) <==> (Amp in xs || x == Amp)
  {
    assert (xs + [x])[..|xs|] == xs;
  }

  lemma {:induction false} FlatPrefix(xs: seq<Item>, k: nat)
    requires k < |xs|
    ensures Flat(xs[..k]) + TokensOf(xs[k]) == Flat(xs[..k + 1]) && Flat(xs[..k + 1]) <= Flat(xs)
    decreases |xs|
  {
    hide TokensOf;
    assert xs[..k + 1] == xs[..k] + [xs[k]];
    FlatGrows(xs[..k], xs[k]);
    var n := |xs| - 1;
    if k == n {
      assert xs[..k + 1] == xs;
    } else {
      FlatPrefix(xs[..n], k);
      assert xs[..n][..k + 1] == xs[..k + 1];
    }
  }

  // Stages before the last one do not change any more.
  lemma {:induction false} StagesPrefix(xs: seq<Item>, k: nat)
    requires k <= |xs|
    ensures |Stages(xs[..k])| <= |Stages(xs)|
    ensures forall j :: 0 <= j < |Stages(xs[..k])| - 1 ==> Stages(xs)[j] == Stages(xs[..k])[j]
    decreases |xs|
  {
    var n := |xs| - 1;
    if k == |xs| {
      assert xs[..k] == xs;
    } else {
      StagesPrefix(xs[..n], k);
      assert xs[..n][..k] == xs[..k];
      assert xs == xs[..n] + [xs[n]];
      Grows(xs[..n], xs[n]);
    }
  }

  function NextCurrent(current: seq<Str>, x: Item): seq<Str> {
    match x
    case Bar => []
    case Word(word) => current + [word]
    case _ => current
  }

  function NextPipeline(p: Pipeline, current: seq<Str>, x: Item): Pipeline {
    match x
    case Bar => p.(commands := p.commands + [current])
    case In(name) => p.(input := name)
    case Out(name) => p.(output := name)
    case Amp => p.(background := true)
    case Word(_) => p
  }

  lemma ReachedNext(xs: seq<Item>, current: seq<Str>, p: Pipeline, x: Item)
    requires Reached(xs, current, p)
    ensures Reached(xs + [x], NextCurrent(current, x), NextPipeline(p, current, x))
  {
    hide Stages, LastIn, LastOut;
    Grows(xs, x);
  }

  // The pass takes one item.
  lemma TakesItem(ts: seq<Str>, i: nat, current: seq<Str>, p: Pipeline, x: Item)
    requires i + |TokensOf(x)| <= |ts| && ts[i..i + |TokensOf(x)|] == TokensOf(x) && ItemOk(x)
    requires (x == Bar ==> current != []) && (x == Amp ==> i + 1 == |ts|)
    ensures Parse(ts, i, current, p) ==
      Parse(ts, i + |TokensOf(x)|, NextCurrent(current, x), NextPipeline(p, current, x))
  {
    assert ts[i] == TokensOf(x)[0];
    if x.In? || x.Out? {
      assert ts[i + 1] == TokensOf(x)[1];
    }
  }

  lemma StageBeforeBar(xs: seq<Item>, k: nat, current: seq<Str>, p: Pipeline)
    requires Shape(xs) && k < |xs| && xs[k] == Bar && Reached(xs[..k], current, p)
    ensures current != []
  {
    hide LastIn, LastOut, Stages;
    assert xs[..k + 1] == xs[..k] + [Bar];
    Grows(xs[..k], Bar);
    StagesPrefix(xs, k + 1);
    var n := |p.commands|;
    assert Stages(xs[..k + 1])[n] == current;
  }

  lemma {:induction false} ParsesItems(xs: seq<Item>, k: nat, current: seq<Str>, p: Pipeline)
    returns (c: seq<Str>, q: Pipeline)
    requires Shape(xs) && k <= |xs| && Reached(xs[..k], current, p)
    ensures |Flat(xs[..k])| <= |Flat(xs)|
    ensures Parse(Flat(xs), |Flat(xs[..k])|, current, p) == Finish(c, q) && Reached(xs, c, q)
    decreases |xs| - k
  {
    hide Parse, Finish, Reached, Flat, Stages, TokensOf;
    if k == |xs| {
      assert xs[..k] == xs;
      AtEnd(Flat(xs), current, p);
      c, q := current, p;
    } else {
      var x := xs[k];
      assert xs[..k + 1] == xs[..k] + [x];
      assert x in xs;
      FlatPrefix(xs, k);
      ReachedNext(xs[..k], current, p, x);
      if x == Bar {
        StageBeforeBar(xs, k, current, p);
      }
      var i, j := |Flat(xs[..k])|, |Flat(xs[..k + 1])|;
      Slice(Flat(xs), Flat(xs[..k]), TokensOf(x));
      AmpLast(xs, k);
      TakesItem(Flat(xs), i, current, p, x);
      c, q := ParsesItems(xs, k + 1, NextCurrent(current, x), NextPipeline(p, current, x));
    }
  }

  lemma Slice(t: seq<Str>, a: seq<Str>, b: seq<Str>)
    requires a + b <= t
    ensures |a| + |b| <= |t| && t[|a|..|a| + |b|] == b && a <= t
  {
    assert (a + b)[|a|..] == b;
    assert t[..|a| + |b|] == a + b;
  }

  lemma AmpLast(xs: seq<Item>, k: nat)
    requires Shape(xs) && k < |xs|
    ensures xs[k] == Amp ==> |Flat(xs[..k])| + 1 == |Flat(xs)|
  {
    hide Stages;
    assert xs[k] == Amp ==> k == |xs| - 1;
  }

  lemma AtEnd(ts: seq<Str>, current: seq<Str>, p: Pipeline)
    ensures Parse(ts, |ts|, current, p) == Finish(current, p)
  {
  }

  lemma {:induction false} NamesAreFiles(xs: seq<Item>)
    requires forall x :: x in xs ==> ItemOk(x)
    ensures LastIn(xs) != [] || LastOut(xs) != [] <==> HasFile(xs)
  {
    if xs != [] {
      var n := |xs| - 1;
      assert xs[n] in xs;
      assert xs == xs[..n] + [xs[n]];
      NamesAreFiles(xs[..n]);
      assert forall k :: 0 <= k < n ==> xs[k] == xs[..n][k];
    }
  }

  predicate HasCommand(stages: seq<seq<Str>>) {
    exists k :: 0 <= k < |stages| && stages[k] != []
  }

  lemma {:induction false} WordsMakeCommands(xs: seq<Item>)
    ensures HasCommand(Stages(xs)) <==> HasWord(xs)
  {
    if xs != [] {
      var n := |xs| - 1;
      WordsMakeCommands(xs[..n]);
      OneMoreStage(xs[..n], xs[n]);
      assert xs == xs[..n] + [xs[n]];
      assert forall k :: 0 <= k < n ==> xs[k] == xs[..n][k];
    }
  }

  lemma OneMoreStage(xs: seq<Item>, x: Item)
    ensures HasCommand(Stages(xs + [x])) <==> HasCommand(Stages(xs)) || x.Word?
  {
    hide Stages;
    Grows(xs, x);
    var a, b := Stages(xs), Stages(xs + [x]);
    assert |a| <= |b| && forall k :: 0 <= k < |a| - 1 ==> a[k] == b[k];
    if x.Word? {
      assert b[|a| - 1] != [];
    } else {
      assert b[|a| - 1] == a[|a| - 1];
    }
  }

  lemma Finishes(xs: seq<Item>, current: seq<Str>, p: Pipeline)
    requires Shape(xs) && Reached(xs, current, p)
    ensures if WellFormed(xs) then Finish(current, p) == Ok(Meaning(xs)) else Finish(current, p) == Err(NoCommand)
  {
    hide Stages, LastIn, LastOut, HasFile, HasWord;
    NamesAreFiles(xs);
    WordsMakeCommands(xs);
    var stages, n := Stages(xs), |p.commands|;
    assert stages[n] == current && stages[..n] == p.commands;
    assert forall k :: 0 <= k < n ==> stages[k] == p.commands[k];
    assert HasCommand(stages) <==> p.commands != [] || current != [] by {
      if p.commands != [] {
        assert stages[0] != [];
      }
    }
    if current == [] {
      assert WithoutEmptyLast(stages) == p.commands;
    }
  }

  lemma StartReached()
    ensures Reached([], [], EMPTY) && Shape([]) && Flat([]) == []
  {
    assert Stages([]) == [[]];
  }

  /** A well-formed line parses to its meaning. */
  lemma WellFormedParses(xs: seq<Item>)
    requires Shape(xs)
    ensures Parse(Flat(xs), 0, [], EMPTY) == if WellFormed(xs) then Ok(Meaning(xs)) else Err(NoCommand)
  {
    hide Parse, Flat, Finish, Meaning, WellFormed, Reached, Shape;
    StartReached();
    assert xs[..0] == [];
    var c, q := ParsesItems(xs, 0, [], EMPTY);
    Finishes(xs, c, q);
  }

  lemma ShapeGrows(xs: seq<Item>, current: seq<Str>, p: Pipeline, x: Item)
    requires Shape(xs) && Amp !in xs && ItemOk(x) && Reached(xs, current, p) && (x == Bar ==> current != [])
    ensures Shape(xs + [x])
  {
    hide Stages, LastIn, LastOut, ItemOk;
    Grows(xs, x);
    var n := |p.commands|;
    assert Stages(xs)[n] == current;
  }

  // The item at token i of a line that is not rejected there.
  function NextItem(ts: seq<Str>, i: nat): Item
    requires i < |ts| && (ts[i] == [LESS] || ts[i] == [GREATER] ==> i + 1 < |ts|)
  {
    if ts[i] == [BAR] then Bar
    else if ts[i] == [LESS] then In(ts[i + 1])
    else if ts[i] == [GREATER] then Out(ts[i + 1])
    else if ts[i] == [AMPERSAND] then Amp
    else Word(ts[i])
  }

  lemma NextItemOk(ts: seq<Str>, i: nat, current: seq<Str>, p: Pipeline)
    requires i < |ts| && (forall t :: t in ts ==> t != []) && Parse(ts, i, current, p).Ok?
    ensures ts[i] == [LESS] || ts[i] == [GREATER] ==> i + 1 < |ts|
    ensures var x := NextItem(ts, i);
      && ItemOk(x) && (x == Bar ==> current != []) && (x == Amp ==> i + 1 == |ts|)
      && i + |TokensOf(x)| <= |ts| && ts[i..i + |TokensOf(x)|] == TokensOf(x)
  {
    assert ts[i] in ts;
    if ts[i] == [LESS] || ts[i] == [GREATER] {
      assert i + 1 < |ts| && ts[i + 1] in ts;
    }
  }

  lemma {:induction false} Reading(ts: seq<Str>, i: nat, done: seq<Item>, current: seq<Str>, p: Pipeline)
    returns (xs: seq<Item>)
    requires i <= |ts| && (forall t :: t in ts ==> t != []) && Parse(ts, i, current, p).Ok?
    requires Flat(done) == ts[..i] && Shape(done) && Reached(done, current, p) && (i < |ts| ==> Amp !in done)
    ensures Flat(xs) == ts && WellFormed(xs)
    decreases |ts| - i
  {
    hide Parse, Finish, Flat, Shape, WellFormed, Meaning, Reached, NextItem, TokensOf, ItemOk;
    if i == |ts| {
      AtEnd(ts, current, p);
      Finishes(done, current, p);
      xs := done;
      assert ts[..i] == ts;
    } else {
      NextItemOk(ts, i, current, p);
      var x := NextItem(ts, i);
      TakesItem(ts, i, current, p, x);
      ReachedNext(done, current, p, x);
      FlatGrows(done, x);
      ShapeGrows(done, current, p, x);
      TokensCount(x);
      var j := i + |TokensOf(x)|;
      assert ts[..j] == ts[..i] + ts[i..j];
      xs := Reading(ts, j, done + [x], NextCurrent(current, x), NextPipeline(p, current, x));
    }
  }

  lemma TokensCount(x: Item)
    ensures |TokensOf(x)| > 0
  {
  }

  /** The parser accepts exactly the well-formed lines. */
  lemma AcceptsWellFormed(ts: seq<Str>)
    requires forall t :: t in ts ==> t != []
    ensures Parse(ts, 0, [], EMPTY).Ok? <==> exists xs :: WellFormed(xs) && Flat(xs) == ts
  {
    hide Parse, Flat, WellFormed, Reached, Meaning;
    if Parse(ts, 0, [], EMPTY).Ok? {
      StartReached();
      var xs := Reading(ts, 0, [], [], EMPTY);
    }
    forall xs | WellFormed(xs) && Flat(xs) == ts ensures Parse(ts, 0, [], EMPTY).Ok? {
      WellFormedShape(xs);
      WellFormedParses(xs);
    }
  }

  lemma WellFormedShape(xs: seq<Item>)
    requires WellFormed(xs)
    ensures Shape(xs)
  {
  }

  // ------------------------------------------------------------ the first error

  // The pass over a front part of a line.
  lemma {:induction false} ParsesFront(xs: seq<Item>, rest: seq<Str>, k: nat, current: seq<Str>, p: Pipeline)
    returns (c: seq<Str>, q: Pipeline)
    requires Shape(xs) && Amp !in xs && k <= |xs| && Reached(xs[..k], current, p)
    ensures |Flat(xs[..k])| <= |Flat(xs)|
    ensures Parse(Flat(xs) + rest, |Flat(xs[..k])|, current, p) == Parse(Flat(xs) + rest, |Flat(xs)|, c, q)
    ensures Reached(xs, c, q)
    decreases |xs| - k
  {
    hide Parse, Reached, Flat, Stages, TokensOf;
    if k == |xs| {
      assert xs[..k] == xs;
      c, q := current, p;
    } else {
      var x := xs[k];
      assert xs[..k + 1] == xs[..k] + [x];
      assert x in xs;
      FlatPrefix(xs, k);
      ReachedNext(xs[..k], current, p, x);
      if x == Bar {
        StageBeforeBar(xs, k, current, p);
      }
      var i := |Flat(xs[..k])|;
      assert Flat(xs[..k]) + TokensOf(x) <= Flat(xs) + rest;
      Slice(Flat(xs) + rest, Flat(xs[..k]), TokensOf(x));
      TakesItem(Flat(xs) + rest, i, current, p, x);
      c, q := ParsesFront(xs, rest, k + 1, NextCurrent(current, x), NextPipeline(p, current, x));
    }
  }

  // The rest of a line cannot go on like this after items xs.
  predicate Breaks(xs: seq<Item>, rest: seq<Str>, e: Error) {
    match e
    case NoCommandBeforeBar => rest != [] && rest[0] == [BAR] && Stages(xs)[|Stages(xs)| - 1] == []
    case NoInputFile => rest != [] && rest[0] == [LESS] && (|rest| == 1 || IsOperator(rest[1]))
    case NoOutputFile => rest != [] && rest[0] == [GREATER] && (|rest| == 1 || IsOperator(rest[1]))
    case AmpersandNotLast => |rest| > 1 && rest[0] == [AMPERSAND]
    case NoCommand => rest == [] && HasFile(xs) && !HasWord(xs)
  }

  lemma BreaksHere(ts: seq<Str>, xs: seq<Item>, rest: seq<Str>, current: seq<Str>, p: Pipeline, e: Error)
    requires ts == Flat(xs) + rest && Reached(xs, current, p) && !e.NoCommand? && Breaks(xs, rest, e)
    ensures Parse(ts, |Flat(xs)|, current, p) == Err(e)
  {
    hide Stages, Flat, LastIn, LastOut;
    assert ts[|Flat(xs)|..] == rest;
    assert ts[|Flat(xs)|] == rest[0] && (|rest| > 1 ==> ts[|Flat(xs)| + 1] == rest[1]);
  }

  lemma {:induction false} ErrorReading(ts: seq<Str>, i: nat, done: seq<Item>, current: seq<Str>, p: Pipeline, e: Error)
    returns (xs: seq<Item>, rest: seq<Str>)
    requires i <= |ts| && (forall t :: t in ts ==> t != []) && Parse(ts, i, current, p) == Err(e)
    requires Flat(done) == ts[..i] && Shape(done) && Reached(done, current, p) && (i < |ts| ==> Amp !in done)
    ensures Flat(xs) + rest == ts && Shape(xs) && Breaks(xs, rest, e) && (rest != [] ==> Amp !in xs)
    decreases |ts| - i
  {
    hide Parse, Finish, Flat, Shape, WellFormed, Meaning, Reached, NextItem, TokensOf, ItemOk, Breaks;
    xs, rest := done, ts[i..];
    if i == |ts| {
      AtEnd(ts, current, p);
      Finishes(done, current, p);
      EndsWithoutCommand(done, e, current, p);
      assert ts[..i] == ts;
    } else if ItemHere(ts, i, current) {
      ItemHereOk(ts, i, current);
      var x := NextItem(ts, i);
      TakesItem(ts, i, current, p, x);
      ReachedNext(done, current, p, x);
      FlatGrows(done, x);
      ShapeGrows(done, current, p, x);
      TokensCount(x);
      AmpEnds(ts, i, current);
      var j := i + |TokensOf(x)|;
      assert ts[..j] == ts[..i] + ts[i..j];
      xs, rest := ErrorReading(ts, j, done + [x], NextCurrent(current, x), NextPipeline(p, current, x), e);
    } else {
      assert ts == ts[..i] + ts[i..];
      StopsHere(ts, i, done, current, p, e);
    }
  }

  // Token i starts an item that may stand there.
  predicate ItemHere(ts: seq<Str>, i: nat, current: seq<Str>)
    requires i < |ts|
  {
    && (ts[i] == [BAR] ==> current != [])
    && (ts[i] == [LESS] || ts[i] == [GREATER] ==> i + 1 < |ts| && !IsOperator(ts[i + 1]))
    && (ts[i] == [AMPERSAND] ==> i + 1 == |ts|)
  }

  lemma ItemHereOk(ts: seq<Str>, i: nat, current: seq<Str>)
    requires i < |ts| && (forall t :: t in ts ==> t != []) && ItemHere(ts, i, current)
    ensures var x := NextItem(ts, i);
      && ItemOk(x) && (x == Bar ==> current != []) && (x == Amp ==> i + 1 == |ts|)
      && i + |TokensOf(x)| <= |ts| && ts[i..i + |TokensOf(x)|] == TokensOf(x)
  {
    assert ts[i] in ts;
    if ts[i] == [LESS] || ts[i] == [GREATER] {
      assert ts[i + 1] in ts;
    }
  }

  lemma AmpEnds(ts: seq<Str>, i: nat, current: seq<Str>)
    requires i < |ts| && ItemHere(ts, i, current)
    ensures NextItem(ts, i) == Amp ==> i + |TokensOf(NextItem(ts, i))| == |ts|
  {
  }

  lemma StopsHere(ts: seq<Str>, i: nat, xs: seq<Item>, current: seq<Str>, p: Pipeline, e: Error)
    requires i < |ts| && !ItemHere(ts, i, current) && Parse(ts, i, current, p) == Err(e) && Reached(xs, current, p)
    ensures Breaks(xs, ts[i..], e)
  {
    hide Stages, LastIn, LastOut;
    var n := |p.commands|;
    assert Stages(xs)[n] == current;
    assert ts[i..][0] == ts[i] && (i + 1 < |ts| ==> ts[i..][1] == ts[i + 1]);
  }

  lemma EndsWithoutCommand(xs: seq<Item>, e: Error, current: seq<Str>, p: Pipeline)
    requires Shape(xs) && Finish(current, p) == Err(e)
    requires if WellFormed(xs) then Finish(current, p) == Ok(Meaning(xs)) else Finish(current, p) == Err(NoCommand)
    ensures Breaks(xs, [], e)
  {
    hide Shape, Meaning, HasFile, HasWord;
  }

  /**
    A line is rejected with error e if and only if it starts with items that may stand there and goes
    on in the way e names, or ends with a redirection but no command.
   */
  lemma FirstError(ts: seq<Str>, e: Error)
    requires forall t :: t in ts ==> t != []
    ensures Parse(ts, 0, [], EMPTY) == Err(e) <==>
      exists xs, rest :: Flat(xs) + rest == ts && Shape(xs) && (rest != [] ==> Amp !in xs) && Breaks(xs, rest, e)
  {
    hide Parse, Flat, Shape, Reached, Breaks, WellFormed, Meaning;
    StartReached();
    if Parse(ts, 0, [], EMPTY) == Err(e) {
      var xs, rest := ErrorReading(ts, 0, [], [], EMPTY, e);
    }
    forall xs, rest | Flat(xs) + rest == ts && Shape(xs) && (rest != [] ==> Amp !in xs) && Breaks(xs, rest, e)
      ensures Parse(ts, 0, [], EMPTY) == Err(e)
    {
      ErrorKind(xs, rest, e);
      if e.NoCommand? {
        assert Flat(xs) + [] == Flat(xs);
        WellFormedParses(xs);
      } else {
        assert xs[..0] == [];
        var c, q := ParsesFront(xs, rest, 0, [], EMPTY);
        BreaksHere(ts, xs, rest, c, q, e);
      }
    }
  }

  lemma ErrorKind(xs: seq<Item>, rest: seq<Str>, e: Error)
    requires Breaks(xs, rest, e)
    ensures if e.NoCommand? then rest == [] && !WellFormed(xs) else rest != []
  {
    hide Shape, HasFile, HasWord;
  }

  // ------------------------------------------------------------ what the readings mean

  /** Bars cut a line into its stages. */
  lemma {:induction false} StagesAtBar(xs: seq<Item>, ys: seq<Item>)
    ensures Stages(xs + [Bar] + ys) == Stages(xs) + Stages(ys)
    decreases |ys|
  {
    hide Stages, LastIn, LastOut;
    if ys == [] {
      NoItems();
      assert xs + [Bar] + ys == xs + [Bar];
      Grows(xs, Bar);
    } else {
      var n := |ys| - 1;
      var front, y := ys[..n], ys[n];
      StagesAtBar(xs, front);
      assert xs + [Bar] + ys == (xs + [Bar] + front) + [y] && ys == front + [y];
      Grows(xs + [Bar] + front, y);
      Grows(front, y);
      LastOfConcat(Stages(xs), Stages(front));
    }
  }

  lemma LastOfConcat(a: seq<seq<Str>>, b: seq<seq<Str>>)
    requires b != []
    ensures (a + b)[|a + b| - 1] == b[|b| - 1] && (a + b)[..|a + b| - 1] == a + b[..|b| - 1]
  {
  }

  function WordsIn(xs: seq<Item>): seq<Str> {
    if xs == [] then []
    else WordsIn(xs[..|xs| - 1]) + if xs[|xs| - 1].Word? then [xs[|xs| - 1].word] else []
  }

  /** Between bars a stage is its words in order, wherever redirections stand among them. */
  lemma {:induction false} StageIsItsWords(xs: seq<Item>)
    requires Bar !in xs
    ensures Stages(xs) == [WordsIn(xs)]
  {
    hide Stages, LastIn, LastOut;
    if xs == [] {
      NoItems();
    } else {
      var n := |xs| - 1;
      assert xs == xs[..n] + [xs[n]];
      StageIsItsWords(xs[..n]);
      Grows(xs[..n], xs[n]);
      assert WordsIn(xs[..n]) + [] == WordsIn(xs[..n]);
    }
  }

  /** The last redirection of each kind is the one that counts. */
  lemma {:induction false} LastFileCounts(xs: seq<Item>, x: Item, ys: seq<Item>)
    ensures x.In? && (forall y :: y in ys ==> !y.In?) ==> LastIn(xs + [x] + ys) == x.name
    ensures x.Out? && (forall y :: y in ys ==> !y.Out?) ==> LastOut(xs + [x] + ys) == x.name
    ensures (forall y :: y in ys ==> !y.In?) ==> LastIn(ys) == []
    ensures (forall y :: y in ys ==> !y.Out?) ==> LastOut(ys) == []
    decreases |ys|
  {
    hide Stages, LastIn, LastOut;
    if ys == [] {
      NoItems();
      assert xs + [x] + ys == xs + [x];
      Grows(xs, x);
    } else {
      var n := |ys| - 1;
      LastFileCounts(xs, x, ys[..n]);
      assert xs + [x] + ys == (xs + [x] + ys[..n]) + [ys[n]] && ys == ys[..n] + [ys[n]];
      Grows(xs + [x] + ys[..n], ys[n]);
      Grows(ys[..n], ys[n]);
    }
  }

  // ------------------------------------------------------------ what acceptance guarantees

  lemma {:induction false} StagesHoldWords(xs: seq<Item>)
    requires forall x :: x in xs ==> ItemOk(x)
    ensures forall k, w :: 0 <= k < |Stages(xs)| && w in Stages(xs)[k] ==> PlainToken(w)
  {
    hide PlainToken;
    if xs != [] {
      var n := |xs| - 1;
      assert xs[n] in xs && xs == xs[..n] + [xs[n]];
      StagesHoldWords(xs[..n]);
    }
  }

  /** Every accepted line has only non-empty argument vectors, none of their words an operator. */
  lemma AcceptedCommands(ts: seq<Str>)
    requires (forall t :: t in ts ==> t != []) && Parse(ts, 0, [], EMPTY).Ok?
    ensures var p := Parse(ts, 0, [], EMPTY).pipeline;
      && (forall k :: 0 <= k < |p.commands| ==> p.commands[k] != [] && forall w :: w in p.commands[k] ==> PlainToken(w))
      && (p.input != [] || p.output != [] ==> p.commands != [])
  {
    hide Parse, Flat, Reached, Stages, PlainToken, LastIn, LastOut;
    StartReached();
    var xs := Reading(ts, 0, [], [], EMPTY);
    WellFormedParses(xs);
    StagesHoldWords(xs);
    NamesAreFiles(xs);
    WordsMakeCommands(xs);
  }

  // Some command word comes after the last bar.
  predicate EndsInCommand(xs: seq<Item>) {
    exists k :: 0 <= k < |xs| && xs[k].Word? && forall j :: k < j < |xs| ==> xs[j] != Bar
  }

  lemma {:induction false} LastStage(xs: seq<Item>)
    ensures Stages(xs)[|Stages(xs)| - 1] != [] <==> EndsInCommand(xs)
  {
    hide Stages, LastIn, LastOut, EndsInCommand;
    if xs == [] {
      NoItems();
      NoCommandYet();
    } else {
      var n := |xs| - 1;
      assert xs == xs[..n] + [xs[n]];
      LastStage(xs[..n]);
      Grows(xs[..n], xs[n]);
      EndsAfter(xs[..n], xs[n]);
    }
  }

  lemma NoCommandYet()
    ensures !EndsInCommand([])
  {
  }

  lemma EndsAfter(xs: seq<Item>, x: Item)
    ensures EndsInCommand(xs + [x]) <==> x.Word? || (EndsInCommand(xs) && x != Bar)
  {
    var ys, n := xs + [x], |xs|;
    if EndsInCommand(xs) && x != Bar {
      var k :| 0 <= k < n && xs[k].Word? && forall j :: k < j < n ==> xs[j] != Bar;
      assert ys[k].Word? && forall j :: k < j < |ys| ==> ys[j] != Bar;
    }
    if EndsInCommand(ys) && !x.Word? {
      var k :| 0 <= k < |ys| && ys[k].Word? && forall j :: k < j < |ys| ==> ys[j] != Bar;
      assert ys[n] == x && k < n && xs[k].Word? && forall j :: k < j < n ==> xs[j] == ys[j];
    }
    assert x.Word? ==> ys[n].Word?;
  }

  /**
    The header promises that every stage of an accepted line has a program. That holds if and only
    if a command word follows the last bar, or is there at all in a line without bars: then and only
    then is there one command per stage.
   */
  lemma EveryStageHasCommand(xs: seq<Item>)
    requires WellFormed(xs)
    ensures Parse(Flat(xs), 0, [], EMPTY).Ok?
    ensures (forall k :: 0 <= k < |Stages(xs)| ==> Stages(xs)[k] != []) <==> EndsInCommand(xs)
    ensures |Parse(Flat(xs), 0, [], EMPTY).pipeline.commands| == |Stages(xs)| <==> EndsInCommand(xs)
  {
    hide Parse, Flat, Stages, LastIn, LastOut, EndsInCommand;
    WellFormedParses(xs);
    LastStage(xs);
  }

  /** `ls |`, `ls | > out` and `ls | &` are accepted, each with one command for its two stages. */
  lemma EmptyStagesAccepted()
    ensures var ls, out: Str := [108, 115], [111, 117, 116];
      && Parse([ls, [BAR]], 0, [], EMPTY) == Ok(Pipeline([[ls]], [], [], false))
      && Parse([ls, [BAR], [GREATER], out], 0, [], EMPTY) == Ok(Pipeline([[ls]], [], out, false))
      && Parse([ls, [BAR], [AMPERSAND]], 0, [], EMPTY) == Ok(Pipeline([[ls]], [], [], true))
  {
    var ls, out: Str := [108, 115], [111, 117, 116];
    OneCommandThenBar([ls, [BAR]], ls);
    OneCommandThenBar([ls, [BAR], [GREATER], out], ls);
    OneCommandThenBar([ls, [BAR], [AMPERSAND]], ls);
  }

  lemma OneCommandThenBar(ts: seq<Str>, ls: Str)
    requires |ts| >= 2 && PlainToken(ls) && ts[0] == ls && ts[1] == [BAR]
    ensures Parse(ts, 0, [], EMPTY) == Parse(ts, 2, [], EMPTY.(commands := [[ls]]))
  {
    var none: seq<Str> := [];
    assert none + [ls] == [ls];
    assert Parse(ts, 0, [], EMPTY) == Parse(ts, 1, [ls], EMPTY);
    var empty: seq<seq<Str>> := [];
    assert empty + [[ls]] == [[ls]];
  }

  /** A bar at the end of an accepted line adds nothing. */
  lemma TrailingBar(xs: seq<Item>)
    requires WellFormed(xs) && Amp !in xs && Stages(xs)[|Stages(xs)| - 1] != []
    ensures Parse(Flat(xs) + [[BAR]], 0, [], EMPTY) == Parse(Flat(xs), 0, [], EMPTY)
  {
    hide Parse, Flat, Stages, LastIn, LastOut, ItemOk;
    var ys := xs + [Bar];
    FlatGrows(xs, Bar);
    Grows(xs, Bar);
    BarOk();
    WellFormedParses(xs);
    assert Shape(ys);
    WellFormedParses(ys);
    assert forall k :: 0 <= k < |xs| ==> ys[k] == xs[k];
    assert WellFormed(ys);
    assert Meaning(ys) == Meaning(xs);
  }

  lemma BarOk()
    ensures ItemOk(Bar)
  {
  }

  // ------------------------------------------------------------ printing

  function WordItems(ws: seq<Str>): (r: seq<Item>)
    ensures |r| == |ws|
  {
    seq(|ws|, i requires 0 <= i < |ws| => Word(ws[i]))
  }

  function CommandItems(cmds: seq<seq<Str>>): seq<Item> {
    if cmds == [] then []
    else if |cmds| == 1 then WordItems(cmds[0])
    else CommandItems(cmds[..|cmds| - 1]) + [Bar] + WordItems(cmds[|cmds| - 1])
  }

  function FileItems(p: Pipeline): seq<Item> {
    (if p.input == [] then [] else [In(p.input)]) + (if p.output == [] then [] else [Out(p.output)]) +
    (if p.background then [Amp] else [])
  }

  function Print(p: Pipeline): Str {
    Join(Flat(CommandItems(p.commands) + FileItems(p)))
  }

  predicate Arg(w: Str) {
    w != [] && AllPlain(w)
  }

  predicate Printable(p: Pipeline) {
    && p.commands != []
    && (forall k :: 0 <= k < |p.commands| ==> p.commands[k] != [] && forall w :: w in p.commands[k] ==> Arg(w))
    && (p.input == [] || Arg(p.input)) && (p.output == [] || Arg(p.output))
  }

  lemma {:induction false} StagesOfWords(xs: seq<Item>, ws: seq<Str>)
    ensures var a := Stages(xs); Stages(xs + WordItems(ws)) == a[..|a| - 1] + [a[|a| - 1] + ws]
    ensures LastIn(xs + WordItems(ws)) == LastIn(xs) && LastOut(xs + WordItems(ws)) == LastOut(xs)
    decreases |ws|
  {
    hide Stages, LastIn, LastOut;
    if ws == [] {
      assert xs + WordItems(ws) == xs;
      var a := Stages(xs);
      assert a == a[..|a| - 1] + [a[|a| - 1]] && a[|a| - 1] + ws == a[|a| - 1];
    } else {
      var n := |ws| - 1;
      StagesOfWords(xs, ws[..n]);
      assert xs + WordItems(ws) == xs + WordItems(ws[..n]) + [Word(ws[n])];
      Grows(xs + WordItems(ws[..n]), Word(ws[n]));
      var last := Stages(xs)[|Stages(xs)| - 1];
      assert last + ws == last + ws[..n] + [ws[n]];
    }
  }

  lemma {:induction false} StagesOfCommands(cmds: seq<seq<Str>>)
    requires cmds != []
    ensures var xs := CommandItems(cmds); Stages(xs) == cmds && LastIn(xs) == [] && LastOut(xs) == []
  {
    hide Stages, LastIn, LastOut, WordItems;
    if |cmds| == 1 {
      StagesOfWords([], cmds[0]);
      NoItems();
      assert [] + WordItems(cmds[0]) == WordItems(cmds[0]);
      assert [] + cmds[0] == cmds[0];
    } else {
      var n := |cmds| - 1;
      var front := CommandItems(cmds[..n]);
      StagesOfCommands(cmds[..n]);
      Grows(front, Bar);
      StagesOfWords(front + [Bar], cmds[n]);
      assert [] + cmds[n] == cmds[n];
    }
  }

  lemma NoItems()
    ensures Stages([]) == [[]] && LastIn([]) == [] && LastOut([]) == []
  {
  }

  // Which items printing produces.
  lemma {:induction false} CommandItemsAre(cmds: seq<seq<Str>>)
    requires forall k, w :: 0 <= k < |cmds| && w in cmds[k] ==> Arg(w)
    ensures forall x :: x in CommandItems(cmds) ==> x == Bar || (x.Word? && Arg(x.word))
    ensures cmds != [] && cmds[0] != [] ==> CommandItems(cmds) != [] && CommandItems(cmds)[0].Word?
  {
    hide Arg;
    if |cmds| > 1 {
      CommandItemsAre(cmds[..|cmds| - 1]);
    }
  }

  lemma FileItemsAre(xs: seq<Item>, p: Pipeline)
    requires LastIn(xs) == [] && LastOut(xs) == [] && Amp !in xs
    ensures var ys := xs + FileItems(p);
      Stages(ys) == Stages(xs) && LastIn(ys) == p.input && LastOut(ys) == p.output && (Amp in ys <==> p.background)
  {
    hide Stages, LastIn, LastOut;
    var a := xs + if p.input == [] then [] else [In(p.input)];
    var b := a + if p.output == [] then [] else [Out(p.output)];
    var c := b + if p.background then [Amp] else [];
    assert xs + FileItems(p) == c;
    assert xs + [] == xs && a + [] == a && b + [] == b;
    Grows(xs, In(p.input));
    Grows(a, Out(p.output));
    Grows(b, Amp);
  }

  lemma ArgsAreTokens(w: Str)
    requires Arg(w)
    ensures IsToken(w) && PlainToken(w)
  {
    assert IsPlain(w[0]);
  }

  lemma {:induction false} FlatTokens(xs: seq<Item>)
    requires forall x :: x in xs ==> ItemOk(x) && forall t :: t in TokensOf(x) ==> IsToken(t)
    ensures forall t :: t in Flat(xs) ==> IsToken(t)
  {
    hide IsToken, ItemOk, TokensOf;
    if xs != [] {
      var n := |xs| - 1;
      assert xs[n] in xs && xs == xs[..n] + [xs[n]];
      FlatTokens(xs[..n]);
    }
  }

  predicate PrintItem(x: Item) {
    match x
    case In(name) => Arg(name)
    case Out(name) => Arg(name)
    case Word(word) => Arg(word)
    case _ => true
  }

  lemma PrintItemOk(x: Item)
    requires PrintItem(x)
    ensures ItemOk(x) && forall t :: t in TokensOf(x) ==> IsToken(t)
  {
    hide IsToken, PlainToken, Arg;
    OperatorTokens();
    match x
    case In(name) => ArgsAreTokens(name);
    case Out(name) => ArgsAreTokens(name);
    case Word(word) => ArgsAreTokens(word);
    case Bar =>
    case Amp =>
  }

  lemma OperatorTokens()
    ensures IsToken([BAR]) && IsToken([LESS]) && IsToken([GREATER]) && IsToken([AMPERSAND])
  {
  }

  lemma PrintedItems(p: Pipeline)
    requires Printable(p)
    ensures var xs := CommandItems(p.commands) + FileItems(p);
      (forall x :: x in xs ==> PrintItem(x)) && WellFormed(xs) && Meaning(xs) == p
  {
    hide Stages, LastIn, LastOut, Arg, CommandItems, PlainToken, FileItems;
    var cs, fs := CommandItems(p.commands), FileItems(p);
    var xs := cs + fs;
    CommandItemsAre(p.commands);
    StagesOfCommands(p.commands);
    FileItemsAre(cs, p);
    FileItemsShape(p);
    forall x | x in xs ensures PrintItem(x) && ItemOk(x) {
      PrintItemOk(x);
    }
    assert p.commands[|p.commands| - 1] != [];
    assert xs[0].Word?;
  }

  lemma FileItemsShape(p: Pipeline)
    requires (p.input == [] || Arg(p.input)) && (p.output == [] || Arg(p.output))
    ensures forall x :: x in FileItems(p) ==> PrintItem(x)
    ensures forall k :: 0 <= k < |FileItems(p)| - 1 ==> FileItems(p)[k] != Amp
  {
    hide Arg;
  }

  /** Printing a pipeline and parsing the line gives the pipeline back. */
  lemma PrintParses(p: Pipeline)
    requires Printable(p)
    ensures Parse(LexOf(Print(p)), 0, [], EMPTY) == Ok(p)
  {
    hide Parse, LexOf, Flat, Printable, PrintItem, TokensOf, ItemOk, IsToken, CommandItems, FileItems;
    hide Join, Meaning, WellFormed, Shape;
    var xs := CommandItems(p.commands) + FileItems(p);
    PrintedItems(p);
    forall x | x in xs ensures ItemOk(x) && forall t :: t in TokensOf(x) ==> IsToken(t) {
      PrintItemOk(x);
    }
    FlatTokens(xs);
    LexOfJoin(Flat(xs));
    WellFormedShape(xs);
    WellFormedParses(xs);
  }
}
