/** Expansion of `${NAME}` references in configuration values. */
module EnvExpansion {
  import opened Basics

  type Environment = map<string, string>

  function Lookup(env: Environment, name: string): string {
    if name in env then env[name] else ""
  }

  /** The two marks that delimit a reference: `${` and `}`. */
  datatype Mark = Opening | Closing

  predicate Occurs(s: string, mark: Mark, i: nat) {
    match mark
    case Opening => i + 1 < |s| && s[i] == '$' && s[i + 1] == '{'
    case Closing => i < |s| && s[i] == '}'
  }

  /** The first position, from `from` on, at which the mark occurs. */
  function Find(s: string, mark: Mark, from: nat): (idx: Option<nat>)
    requires from <= |s|
    ensures idx.Some? ==> from <= idx.value < |s| && Occurs(s, mark, idx.value)
    decreases |s| - from
  {
    if Occurs(s, mark, from) then Some(from)
    else if from == |s| then None
    else Find(s, mark, from + 1)
  }

  lemma {:induction false} FindIsFirst(s: string, mark: Mark, from: nat, i: nat)
    requires from <= |s| && from <= i
    requires Find(s, mark, from).None? || i < Find(s, mark, from).value
    ensures !Occurs(s, mark, i)
    decreases |s| - from
  {
    if from < |s| && from < i { FindIsFirst(s, mark, from + 1, i); }
  }

  /** The positions at which the first reference starts and at which it is closed. */
  datatype Span = Span(start: nat, end: nat)

  function FirstReference(s: string): (span: Option<Span>)
    ensures span.Some? ==> span.value.start + 2 <= span.value.end < |s|
  {
    match Find(s, Opening, 0)
    case None => None
    case Some(idx) =>
      match Find(s, Closing, idx)
      case None => None
      case Some(end) => Some(Span(idx, end))
  }

  /** Left-to-right substitution: text up to a reference, its value, and the expansion of what follows. */
  function Expand(env: Environment, s: string): string
    decreases |s|
  {
    match FirstReference(s)
    case None => s
    case Some(span) => s[..span.start] + Lookup(env, s[span.start + 2..span.end]) + Expand(env, s[span.end + 1..])
  }

  /** Finding in a longer string, past its first part, is finding in the rest. */
  lemma {:induction false} FindInSuffix(done: string, rest: string, mark: Mark, from: nat)
    requires from <= |rest|
    ensures Find(done + rest, mark, |done| + from) ==
            match Find(rest, mark, from) case None => None case Some(i) => Some(|done| + i)
    decreases |rest| - from
  {
    assert Occurs(done + rest, mark, |done| + from) <==> Occurs(rest, mark, from);
    if from < |rest| && !Occurs(rest, mark, from) {
      FindInSuffix(done, rest, mark, from + 1);
    }
  }

  /** Both searches of a step on `done + rest` succeed exactly when `rest` has a reference, and there. */
  lemma SearchesFindReference(done: string, rest: string)
    ensures var opening := Find(done + rest, Opening, |done|);
            match FirstReference(rest)
            case None => opening.None? || Find(done + rest, Closing, opening.value).None?
            case Some(span) => opening == Some(|done| + span.start)
                               && Find(done + rest, Closing, |done| + span.start) == Some(|done| + span.end)
  {
    FindInSuffix(done, rest, Opening, 0);
    var opening := Find(rest, Opening, 0);
    if opening.Some? { FindInSuffix(done, rest, Closing, opening.value); }
  }

  lemma SlicesBehind(done: string, rest: string, a: nat, b: nat)
    requires a <= b <= |rest|
    ensures (done + rest)[..|done| + a] == done + rest[..a]
    ensures (done + rest)[|done| + a..|done| + b] == rest[a..b]
    ensures (done + rest)[|done| + b..] == rest[b..]
  {}

  /** The first reference of `rest` has this name, with this text before it and this one behind it. */
  ghost predicate SplitsAtReference(rest: string, text: string, name: string, tail: string) {
    var start, end := |text|, |text| + 2 + |name|;
    && FirstReference(rest) == Some(Span(start, end))
    && text == rest[..start] && name == rest[start + 2..end] && tail == rest[end + 1..]
  }

  lemma ExpandAt(env: Environment, s: string, span: Span)
    requires FirstReference(s) == Some(span)
    ensures Expand(env, s) == s[..span.start] + Lookup(env, s[span.start + 2..span.end]) + Expand(env, s[span.end + 1..])
  {}

  lemma SplitReference(env: Environment, rest: string) returns (text: string, name: string, tail: string)
    requires FirstReference(rest).Some?
    ensures SplitsAtReference(rest, text, name, tail) && |tail| < |rest|
    ensures Expand(env, rest) == text + Lookup(env, name) + Expand(env, tail)
  {
    var span := FirstReference(rest).value;
    text, name, tail := rest[..span.start], rest[span.start + 2..span.end], rest[span.end + 1..];
    ExpandAt(env, rest, span);
  }

  lemma NoReference(env: Environment, s: string)
    requires FirstReference(s).None?
    ensures Expand(env, s) == s
  {}

  /** The pieces of a reference, seen from `done + rest`. */
  lemma LocateReference(done: string, rest: string, result: string, idx: nat, end: nat, text: string, name: string, tail: string)
    requires result == done + rest && idx == |done| + |text| && end == idx + 2 + |name|
    requires SplitsAtReference(rest, text, name, tail)
    ensures end < |result| && result[..idx] == done + text && result[idx + 2..end] == name && result[end + 1..] == tail
  {
    SlicesBehind(done, rest, |text|, |text|);
    SlicesBehind(done, rest, |text| + 2, |text| + 2 + |name|);
    SlicesBehind(done, rest, |text| + 3 + |name|, |text| + 3 + |name|);
  }

  lemma Regroup(done: string, text: string, value: string, expanded: string)
    ensures done + (text + value + expanded) == (done + text + value) + expanded
  {}

  /** One round of the loop: replace the first reference from `start` on, if there is one.
      `done` and `rest` are the two sides of `start`. */
  method ReplaceNext(env: Environment, result: string, start: nat, ghost done: string, ghost rest: string)
    returns (found: bool, next: string, nextStart: nat, ghost done': string, ghost rest': string)
    requires result == done + rest && start == |done|
    ensures next == done' + rest' && nextStart == |done'|
    ensures done' + Expand(env, rest') == done + Expand(env, rest)
    ensures if found then |rest'| < |rest| else next == result && Expand(env, rest') == rest'
  {
    SearchesFindReference(done, rest);
    var opening := Find(result, Opening, start);
    if opening.None? {
      NoReference(env, rest);
      return false, result, start, done, rest;
    }
    var idx := opening.value;
    var closing := Find(result, Closing, idx);
    if closing.None? {
      NoReference(env, rest);
      return false, result, start, done, rest;
    }
    var end := closing.value;
    ghost var text, name, tail := SplitReference(env, rest);
    LocateReference(done, rest, result, idx, end, text, name, tail);
    var envValue := Lookup(env, result[idx + 2..end]);
    next, nextStart := result[..idx] + envValue + result[end + 1..], idx + |envValue|;
    done', rest' := done + text + envValue, tail;
    Regroup(done, text, envValue, Expand(env, tail));
    return true, next, nextStart, done', rest';
  }

  lemma EmptyPrefix(s: string)
    ensures "" + s == s
  {}

  /** The in-place loop: `result` is rewritten reference by reference and scanning resumes behind
      each inserted value. */
  method ExpandEnvVars(env: Environment, value: string) returns (result: string)
    ensures result == Expand(env, value)
  {
    result := value;
    var start: nat := 0;
    ghost var done, rest, expanded := "", value, Expand(env, value);
    EmptyPrefix(value);
    EmptyPrefix(expanded);
    if Find(value, Opening, 0).None? {
      NoReference(env, value);
      return;
    }
    while true
      invariant result == done + rest && start == |done|
      invariant done + Expand(env, rest) == expanded
      decreases |rest|
    {
      var found;
      found, result, start, done, rest := ReplaceNext(env, result, start, done, rest);
      if !found { break; }
    }
  }

  // ----- An independent reading: tokenise first, then substitute -----

  const OPEN := "${"
  const CLOSE := "}"

  datatype Token = Text(text: string) | Reference(name: string)

  function Source(t: Token): string {
    match t
    case Text(text) => text
    case Reference(name) => OPEN + name + CLOSE
  }

  function Value(env: Environment, t: Token): string {
    match t
    case Text(text) => text
    case Reference(name) => if name in env then env[name] else ""
  }

  function Concat(parts: seq<string>): string {
    if parts == [] then "" else parts[0] + Concat(parts[1..])
  }

  function Sources(tokens: seq<Token>): seq<string> {
    seq(|tokens|, i requires 0 <= i < |tokens| => Source(tokens[i]))
  }

  function Values(env: Environment, tokens: seq<Token>): seq<string> {
    seq(|tokens|, i requires 0 <= i < |tokens| => Value(env, tokens[i]))
  }

  /** The tokens of a string, found without looking at the environment. */
  function Tokens(s: string): seq<Token>
    decreases |s|
  {
    match FirstReference(s)
    case None => [Text(s)]
    case Some(span) => [Text(s[..span.start]), Reference(s[span.start + 2..span.end])] + Tokens(s[span.end + 1..])
  }

  lemma ConcatPair(a: string, b: string, rest: seq<string>)
    ensures Concat([a, b] + rest) == a + b + Concat(rest)
  {
    assert ([a, b] + rest)[1..] == [b] + rest;
    assert ([b] + rest)[1..] == rest;
    assert a + (b + Concat(rest)) == a + b + Concat(rest);
  }

  /** A string is the text before its first reference, the reference, and the rest. */
  lemma SplitAtReference(s: string, span: Span)
    requires FirstReference(s) == Some(span)
    ensures s == s[..span.start] + (OPEN + s[span.start + 2..span.end] + CLOSE) + s[span.end + 1..]
  {
    assert s[span.start..span.start + 2] == OPEN && s[span.end..span.end + 1] == CLOSE;
  }

  /** What one more text and reference in front add to both readings of a list of tokens. */
  lemma PairInFront(env: Environment, text: string, name: string, tokens: seq<Token>)
    ensures Concat(Sources([Text(text), Reference(name)] + tokens)) == text + (OPEN + name + CLOSE) + Concat(Sources(tokens))
    ensures Concat(Values(env, [Text(text), Reference(name)] + tokens)) == text + Lookup(env, name) + Concat(Values(env, tokens))
  {
    assert Sources([Text(text), Reference(name)] + tokens) == [text, OPEN + name + CLOSE] + Sources(tokens);
    assert Values(env, [Text(text), Reference(name)] + tokens) == [text, Lookup(env, name)] + Values(env, tokens);
    ConcatPair(text, OPEN + name + CLOSE, Sources(tokens));
    ConcatPair(text, Lookup(env, name), Values(env, tokens));
  }

  /** Tokenising loses nothing, and expansion replaces each reference by its value and each text by
      itself: values are never scanned again, whatever they contain. */
  lemma {:induction false} ExpansionSubstitutesTokens(env: Environment, s: string)
    ensures Concat(Sources(Tokens(s))) == s
    ensures Concat(Values(env, Tokens(s))) == Expand(env, s)
    decreases |s|
  {
    match FirstReference(s)
    case None =>
      assert Sources([Text(s)]) == [s] && Values(env, [Text(s)]) == [s];
      assert [s][1..] == [] && Concat([s]) == s + Concat([]);
    case Some(span) =>
      ExpansionSubstitutesTokens(env, s[span.end + 1..]);
      PairInFront(env, s[..span.start], s[span.start + 2..span.end], Tokens(s[span.end + 1..]));
      SplitAtReference(s, span);
  }

  /** An opening starts at position `k`. */
  predicate OpensAt(text: string, k: nat) {
    k + 1 < |text| && text[k] == '$' && text[k + 1] == '{'
  }

  /** What a tokenisation looks like: texts and references alternate, names end at their first closing
      brace, no text before a reference holds an opening of its own, and no opening of the last text
      is ever closed. */
  ghost predicate IsLeftmost(tokens: seq<Token>) {
    && |tokens| % 2 == 1
    && (forall i :: 0 <= i < |tokens| ==> (tokens[i].Text? <==> i % 2 == 0))
    && (forall i :: 0 <= i < |tokens| && tokens[i].Reference? ==> '}' !in tokens[i].name)
    && (forall i :: 0 <= i < |tokens| - 1 && tokens[i].Text? ==> forall k: nat :: !OpensAt(tokens[i].text, k))
    && (var last := tokens[|tokens| - 1]; last.Text? && NeverCloses(last.text))
  }

  ghost predicate NeverCloses(text: string) {
    forall k: nat :: OpensAt(text, k) ==> forall m :: k <= m < |text| ==> text[m] != '}'
  }

  lemma OpeningsAgree(s: string)
    ensures forall k: nat :: Occurs(s, Opening, k) <==> OpensAt(s, k)
    ensures forall k: nat :: Occurs(s, Closing, k) <==> k < |s| && s[k] == '}'
  {}

  lemma FirstReferenceIsLeftmost(s: string, span: Span)
    requires FirstReference(s) == Some(span)
    ensures forall k: nat :: !OpensAt(s[..span.start], k)
    ensures '}' !in s[span.start + 2..span.end]
  {
    forall k: nat ensures !OpensAt(s[..span.start], k) {
      if k < span.start { FindIsFirst(s, Opening, 0, k); }
    }
    var name := s[span.start + 2..span.end];
    forall k | 0 <= k < |name| ensures name[k] != '}' {
      FindIsFirst(s, Closing, span.start, span.start + 2 + k);
    }
  }

  lemma WithoutReferenceNeverCloses(s: string)
    requires FirstReference(s).None?
    ensures NeverCloses(s)
  {
    OpeningsAgree(s);
    var opening := Find(s, Opening, 0);
    forall k: nat | OpensAt(s, k) ensures forall m :: k <= m < |s| ==> s[m] != '}' {
      if opening.None? || k < opening.value { FindIsFirst(s, Opening, 0, k); }
      forall m | k <= m < |s| ensures s[m] != '}' {
        FindIsFirst(s, Closing, opening.value, m);
      }
    }
  }

  lemma LeftmostInFront(text: string, name: string, tokens: seq<Token>)
    requires IsLeftmost(tokens) && '}' !in name && forall k: nat :: !OpensAt(text, k)
    ensures IsLeftmost([Text(text), Reference(name)] + tokens)
  {
    var all := [Text(text), Reference(name)] + tokens;
    forall i | 0 <= i < |all| ensures all[i] == if i == 0 then Text(text) else if i == 1 then Reference(name) else tokens[i - 2] {}
  }

  lemma {:induction false} TokensAreLeftmost(s: string)
    ensures IsLeftmost(Tokens(s))
    decreases |s|
  {
    match FirstReference(s)
    case None =>
      WithoutReferenceNeverCloses(s);
    case Some(span) =>
      TokensAreLeftmost(s[span.end + 1..]);
      FirstReferenceIsLeftmost(s, span);
      LeftmostInFront(s[..span.start], s[span.start + 2..span.end], Tokens(s[span.end + 1..]));
  }

  // ----- Unclosed references -----

  lemma {:induction false} FindNothing(s: string, mark: Mark, from: nat)
    requires from <= |s| && forall i: nat :: from <= i ==> !Occurs(s, mark, i)
    ensures Find(s, mark, from).None?
    decreases |s| - from
  {
    if from < |s| { FindNothing(s, mark, from + 1); }
  }

  ghost predicate NoClosingFrom(s: string, k: nat) {
    forall i: nat :: k <= i ==> !Occurs(s, Closing, i)
  }

  lemma {:induction false} ClosingInPrefix(s: string, k: nat, from: nat)
    requires from <= k <= |s| && NoClosingFrom(s, k)
    ensures Find(s[..k], Closing, from) == Find(s, Closing, from)
    decreases k - from
  {
    if from == k {
      FindNothing(s, Closing, k);
    } else if !Occurs(s, Closing, from) {
      ClosingInPrefix(s, k, from + 1);
    }
  }

  lemma {:induction false} OpeningInPrefix(s: string, k: nat, from: nat)
    requires from <= k <= |s|
    ensures var inPrefix, found := Find(s[..k], Opening, from), Find(s, Opening, from);
            if found.Some? && found.value + 1 < k then inPrefix == found else inPrefix.None?
    decreases k - from
  {
    if from < k && !Occurs(s, Opening, from) { OpeningInPrefix(s, k, from + 1); }
  }

  lemma FirstReferenceInPrefix(s: string, k: nat)
    requires k <= |s| && NoClosingFrom(s, k)
    ensures FirstReference(s[..k]) == FirstReference(s)
  {
    OpeningInPrefix(s, k, 0);
    var found := Find(s, Opening, 0);
    if found.Some? {
      if found.value + 1 < k {
        ClosingInPrefix(s, k, found.value);
      } else {
        FindNothing(s, Closing, found.value);
      }
    }
  }

  lemma NoClosingInTail(s: string, text: string, name: string, tail: string, k: nat)
    requires k <= |s| && NoClosingFrom(s, k) && SplitsAtReference(s, text, name, tail)
    ensures |s| - |tail| <= k && NoClosingFrom(tail, k - (|s| - |tail|))
  {
    var end := |text| + 2 + |name|;
    assert Occurs(s, Closing, end);
    forall i: nat | Occurs(tail, Closing, i) ensures i < k - (end + 1) {
      assert Occurs(s, Closing, i + end + 1);
    }
  }

  lemma SplitOfPrefix(s: string, text: string, name: string, tail: string, k: nat, text': string, name': string, tail': string)
    requires |s| - |tail| <= k <= |s| && FirstReference(s[..k]) == FirstReference(s)
    requires SplitsAtReference(s, text, name, tail) && SplitsAtReference(s[..k], text', name', tail')
    ensures text' == text && name' == name && tail' == tail[..k - (|s| - |tail|)]
    ensures tail[k - (|s| - |tail|)..] == s[k..]
  {}

  lemma RegroupTail(text: string, value: string, expanded: string, tail: string)
    ensures text + value + (expanded + tail) == (text + value + expanded) + tail
  {}

  /** From the last closing brace on nothing is replaced: an opening that is never closed leaves the
      text from there on as it is, whatever is expanded before it. */
  lemma {:induction false} UnclosedTailIsKept(env: Environment, s: string, k: nat)
    requires k <= |s| && NoClosingFrom(s, k)
    ensures Expand(env, s) == Expand(env, s[..k]) + s[k..]
    decreases |s|
  {
    FirstReferenceInPrefix(s, k);
    if FirstReference(s).None? {
      NoReference(env, s);
      NoReference(env, s[..k]);
    } else {
      var text, name, tail := SplitReference(env, s);
      var text', name', tail' := SplitReference(env, s[..k]);
      NoClosingInTail(s, text, name, tail, k);
      var k' := k - (|s| - |tail|);
      SplitOfPrefix(s, text, name, tail, k, text', name', tail');
      UnclosedTailIsKept(env, tail, k');
      RegroupTail(text, Lookup(env, name), Expand(env, tail[..k']), s[k..]);
    }
  }

  // ----- Whole configuration documents -----

  datatype Yaml = Str(text: string) | Scalar(value: int) | Arr(items: seq<Yaml>) | Obj(fields: seq<Field>)

  datatype Field = Field(key: string, value: Yaml)

  function Process(env: Environment, y: Yaml): Yaml {
    match y
    case Str(text) => Str(Expand(env, text))
    case Scalar(_) => y
    case Arr(items) => Arr(seq(|items|, i requires 0 <= i < |items| => Process(env, items[i])))
    case Obj(fields) => Obj(seq(|fields|, i requires 0 <= i < |fields| => Field(fields[i].key, Process(env, fields[i].value))))
  }

  /** Equal up to the contents of strings: keys, their order, list lengths and scalars agree. */
  predicate SameShape(a: Yaml, b: Yaml) {
    match (a, b)
    case (Str(_), Str(_)) => true
    case (Scalar(x), Scalar(y)) => x == y
    case (Arr(xs), Arr(ys)) => |xs| == |ys| && forall i :: 0 <= i < |xs| ==> SameShape(xs[i], ys[i])
    case (Obj(xs), Obj(ys)) => |xs| == |ys| && forall i :: 0 <= i < |xs| ==> xs[i].key == ys[i].key && SameShape(xs[i].value, ys[i].value)
    case _ => false
  }

  /** The strings of a document from left to right. */
  function Leaves(y: Yaml): seq<string> {
    match y
    case Str(text) => [text]
    case Scalar(_) => []
    case Arr(items) => LeavesOfItems(items)
    case Obj(fields) => LeavesOfFields(fields)
  }

  function LeavesOfItems(items: seq<Yaml>): seq<string> {
    if items == [] then [] else Leaves(items[0]) + LeavesOfItems(items[1..])
  }

  function LeavesOfFields(fields: seq<Field>): seq<string> {
    if fields == [] then [] else Leaves(fields[0].value) + LeavesOfFields(fields[1..])
  }

  function ExpandAll(env: Environment, texts: seq<string>): (r: seq<string>)
    ensures |r| == |texts|
  {
    seq(|texts|, i requires 0 <= i < |texts| => Expand(env, texts[i]))
  }

  lemma ExpandAllOfParts(env: Environment, a: seq<string>, b: seq<string>)
    ensures ExpandAll(env, a + b) == ExpandAll(env, a) + ExpandAll(env, b)
  {}

  /** Processing a document keeps its shape and expands each of its strings in place. */
  lemma {:induction false} ProcessingKeepsShape(env: Environment, y: Yaml)
    ensures SameShape(y, Process(env, y))
    ensures Leaves(Process(env, y)) == ExpandAll(env, Leaves(y))
    decreases y, 1
  {
    match y
    case Str(_) =>
    case Scalar(_) =>
    case Arr(items) =>
      forall i | 0 <= i < |items| ensures SameShape(items[i], Process(env, items[i])) {
        ProcessingKeepsShape(env, items[i]);
      }
      ProcessingItems(env, items, y);
    case Obj(fields) =>
      forall i | 0 <= i < |fields| ensures SameShape(fields[i].value, Process(env, fields[i].value)) {
        ProcessingKeepsShape(env, fields[i].value);
      }
      ProcessingFields(env, fields, y);
  }

  lemma {:induction false} ProcessingItems(env: Environment, items: seq<Yaml>, whole: Yaml)
    requires forall i :: 0 <= i < |items| ==> items[i] < whole
    ensures LeavesOfItems(seq(|items|, i requires 0 <= i < |items| => Process(env, items[i]))) == ExpandAll(env, LeavesOfItems(items))
    decreases whole, 0, |items|
  {
    if items != [] {
      ProcessingKeepsShape(env, items[0]);
      ProcessingItems(env, items[1..], whole);
      var processed := seq(|items|, i requires 0 <= i < |items| => Process(env, items[i]));
      assert processed[1..] == seq(|items[1..]|, i requires 0 <= i < |items[1..]| => Process(env, items[1..][i]));
      ExpandAllOfParts(env, Leaves(items[0]), LeavesOfItems(items[1..]));
    }
  }

  lemma {:induction false} ProcessingFields(env: Environment, fields: seq<Field>, whole: Yaml)
    requires forall i :: 0 <= i < |fields| ==> fields[i].value < whole
    ensures LeavesOfFields(seq(|fields|, i requires 0 <= i < |fields| => Field(fields[i].key, Process(env, fields[i].value))))
         == ExpandAll(env, LeavesOfFields(fields))
    decreases whole, 0, |fields|
  {
    if fields != [] {
      ProcessingKeepsShape(env, fields[0].value);
      ProcessingFields(env, fields[1..], whole);
      var processed := seq(|fields|, i requires 0 <= i < |fields| => Field(fields[i].key, Process(env, fields[i].value)));
      assert processed[1..] == seq(|fields[1..]|, i requires 0 <= i < |fields[1..]| => Field(fields[1..][i].key, Process(env, fields[1..][i].value)));
      ExpandAllOfParts(env, Leaves(fields[0].value), LeavesOfFields(fields[1..]));
    }
  }
}
