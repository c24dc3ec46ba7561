/** The index from (framework, control) to testing criteria, against a plain scan of the chunks.

    Case mapping is ASCII. */
module CriteriaIndex {
  import opened Basics

  datatype Chunk = Chunk(chunkType: string, framework: string, controlId: string)

  const TESTING_CRITERIA := "testing_criteria"

  function LowerChar(c: char): char {
    if 'A' <= c <= 'Z' then (c as int + 32) as char else c
  }

  function UpperChar(c: char): char {
    if 'a' <= c <= 'z' then (c as int - 32) as char else c
  }

  function Lower(s: string): (r: string)
    ensures |r| == |s|
    ensures forall i :: 0 <= i < |s| ==> r[i] == LowerChar(s[i])
  {
    seq(|s|, i requires 0 <= i < |s| => LowerChar(s[i]))
  }

  function Upper(s: string): (r: string)
    ensures |r| == |s|
    ensures forall i :: 0 <= i < |s| ==> r[i] == UpperChar(s[i])
  {
    seq(|s|, i requires 0 <= i < |s| => UpperChar(s[i]))
  }

  function Key(framework: string, controlId: string): string {
    Lower(framework) + ":" + Upper(controlId)
  }

  predicate Indexed(c: Chunk) {
    c.chunkType == TESTING_CRITERIA && c.framework != "" && c.controlId != ""
  }

  /** The index after the first `n` chunks: where each key was last seen. */
  function Positions(chunks: seq<Chunk>, n: nat): map<string, nat>
    requires n <= |chunks|
  {
    if n == 0 then map[]
    else
      var c := chunks[n - 1];
      if Indexed(c) then Positions(chunks, n - 1)[Key(c.framework, c.controlId) := n - 1] else Positions(chunks, n - 1)
  }

  /** The keys in the order in which they were first seen, which is the order a dictionary lists them. */
  function KeyOrder(chunks: seq<Chunk>, n: nat): seq<string>
    requires n <= |chunks|
  {
    if n == 0 then []
    else
      var order, c := KeyOrder(chunks, n - 1), chunks[n - 1];
      if Indexed(c) && Key(c.framework, c.controlId) !in Positions(chunks, n - 1) then order + [Key(c.framework, c.controlId)] else order
  }

  function FirstIgnoringCase(keys: seq<string>, key: string): Option<string> {
    if keys == [] then None
    else if Lower(keys[0]) == Lower(key) then Some(keys[0])
    else FirstIgnoringCase(keys[1..], key)
  }

  /** The chunk a lookup finds: by the exact key, or else by the first stored key that differs in case only. */
  function Lookup(chunks: seq<Chunk>, framework: string, controlId: string): Option<nat> {
    var positions, key := Positions(chunks, |chunks|), Key(framework, controlId);
    if key in positions then Some(positions[key])
    else match FirstIgnoringCase(KeyOrder(chunks, |chunks|), key)
      case None => None
      case Some(stored) => if stored in positions then Some(positions[stored]) else None
  }

  class RAGIndex {
    var chunks: seq<Chunk>
    var keys: seq<string>            // the index's keys in insertion order
    var positions: map<string, nat>

    ghost predicate Built()
      reads this
    {
      positions == Positions(chunks, |chunks|) && keys == KeyOrder(chunks, |chunks|)
    }

    constructor (loaded: seq<Chunk>)
      ensures chunks == loaded && Built()
    {
      chunks, keys, positions := loaded, [], map[];
      new;
      BuildCriteriaIndex();
    }

    method BuildCriteriaIndex()
      modifies this`keys, this`positions
      ensures Built()
    {
      keys, positions := [], map[];
      for i := 0 to |chunks|
        invariant positions == Positions(chunks, i) && keys == KeyOrder(chunks, i)
      {
        if chunks[i].chunkType == TESTING_CRITERIA {
          var framework, controlId := Lower(chunks[i].framework), Upper(chunks[i].controlId);
          if framework != "" && controlId != "" {
            var key := framework + ":" + controlId;
            if key !in positions { keys := keys + [key]; }
            positions := positions[key := i];
          }
        }
      }
    }

    method GetTestingCriteria(framework: string, controlId: string) returns (found: Option<nat>)
      requires Built()
      ensures found == Lookup(chunks, framework, controlId)
    {
      var key := Key(framework, controlId);
      if key in positions {
        return Some(positions[key]);
      }
      for i := 0 to |keys|
        invariant FirstIgnoringCase(keys, key) == FirstIgnoringCase(keys[i..], key)
      {
        if Lower(keys[i]) == Lower(key) {
          KeysArePositions(chunks, |chunks|);
          return Some(positions[keys[i]]);
        }
        assert keys[i..][1..] == keys[i + 1..];
      }
      return None;
    }
  }

  lemma {:induction false} KeysArePositions(chunks: seq<Chunk>, n: nat)
    requires n <= |chunks|
    ensures forall key :: key in KeyOrder(chunks, n) <==> key in Positions(chunks, n)
  {
    if n > 0 { KeysArePositions(chunks, n - 1); }
  }

  // ----- The scan -----

  /** The same letter up to its case, or the same character. */
  predicate SameLetter(a: char, b: char) {
    || a == b
    || ('A' <= a <= 'Z' && b as int == a as int + 32)
    || ('A' <= b <= 'Z' && a as int == b as int + 32)
  }

  predicate EqualIgnoringCase(s: string, t: string) {
    |s| == |t| && forall i :: 0 <= i < |s| ==> SameLetter(s[i], t[i])
  }

  /** Both case mappings identify exactly the strings that are equal up to the case of their letters. */
  lemma CaseMappingExactly(s: string, t: string)
    ensures Lower(s) == Lower(t) <==> EqualIgnoringCase(s, t)
    ensures Upper(s) == Upper(t) <==> EqualIgnoringCase(s, t)
  {
    if |s| == |t| {
      forall i | 0 <= i < |s|
        ensures LowerChar(s[i]) == LowerChar(t[i]) <==> SameLetter(s[i], t[i])
        ensures UpperChar(s[i]) == UpperChar(t[i]) <==> SameLetter(s[i], t[i])
      {}
      if Lower(s) == Lower(t) {
        forall i | 0 <= i < |s| ensures SameLetter(s[i], t[i]) { assert Lower(s)[i] == Lower(t)[i]; }
      }
      if Upper(s) == Upper(t) {
        forall i | 0 <= i < |s| ensures SameLetter(s[i], t[i]) { assert Upper(s)[i] == Upper(t)[i]; }
      }
    } else {
      assert |Lower(s)| != |Lower(t)| && |Upper(s)| != |Upper(t)|;
    }
  }

  /** A testing-criteria chunk, with both names, for this framework and control. */
  predicate Matches(c: Chunk, framework: string, controlId: string) {
    && c.chunkType == "testing_criteria" && c.framework != "" && c.controlId != ""
    && EqualIgnoringCase(c.framework, framework) && EqualIgnoringCase(c.controlId, controlId)
  }

  /** The last of the first `n` chunks that matches case-insensitively. */
  function LastMatch(chunks: seq<Chunk>, framework: string, controlId: string, n: nat): (found: Option<nat>)
    requires n <= |chunks|
    ensures found.None? ==> forall i :: 0 <= i < n ==> !Matches(chunks[i], framework, controlId)
    ensures found.Some? ==> found.value < n && Matches(chunks[found.value], framework, controlId)
                            && forall i :: found.value < i < n ==> !Matches(chunks[i], framework, controlId)
  {
    if n == 0 then None
    else if Matches(chunks[n - 1], framework, controlId) then Some(n - 1)
    else LastMatch(chunks, framework, controlId, n - 1)
  }

  /** One framework's name followed by a colon starts the other's. */
  predicate Nested(inner: string, outer: string) {
    Lower(inner) + ":" <= Lower(outer)
  }

  lemma CaseFolding(s: string, t: string)
    ensures Lower(Upper(s)) == Lower(s) && Lower(Lower(s)) == Lower(s)
    ensures Lower(s) == Lower(t) ==> Upper(s) == Upper(t)
  {
    if Lower(s) == Lower(t) {
      forall i | 0 <= i < |s| ensures Upper(s)[i] == Upper(t)[i] {
        assert Lower(s)[i] == Lower(t)[i];
      }
    }
  }

  lemma FoldedKey(framework: string, controlId: string)
    ensures Lower(Key(framework, controlId)) == Lower(framework) + ":" + Lower(controlId)
  {
    CaseFolding(framework, framework);
    CaseFolding(controlId, controlId);
    var key := Key(framework, controlId);
    forall i | 0 <= i < |key| ensures Lower(key)[i] == (Lower(framework) + ":" + Lower(controlId))[i] {
      if i < |framework| {
        assert Lower(Lower(framework))[i] == Lower(key)[i];
      } else if i > |framework| {
        assert Lower(Upper(controlId))[i - |framework| - 1] == Lower(key)[i];
      }
    }
  }

  lemma PrefixesNest(f: string, g: string, folded: string)
    requires |f| + 1 <= |folded| && |g| <= |folded|
    requires folded[..|f| + 1] == Lower(f) + ":" && folded[..|g|] == Lower(g)
    ensures |f| < |g| ==> Nested(f, g)
  {
    if |f| < |g| { assert folded[..|f| + 1] <= folded[..|g|]; }
  }

  /** Unless one framework is nested in the other, keys that agree up to case agree in both parts. */
  lemma FoldedKeysDecide(f: string, c: string, g: string, d: string)
    requires Lower(Key(f, c)) == Lower(Key(g, d)) && !Nested(f, g) && !Nested(g, f)
    ensures Lower(f) == Lower(g) && Upper(c) == Upper(d)
  {
    FoldedKey(f, c);
    FoldedKey(g, d);
    var folded := Lower(Key(f, c));
    assert folded[..|f|] == Lower(f) && folded[..|g|] == Lower(g);
    assert folded[..|f| + 1] == Lower(f) + ":" && folded[..|g| + 1] == Lower(g) + ":";
    PrefixesNest(f, g, folded);
    PrefixesNest(g, f, folded);
    assert folded[|f| + 1..] == Lower(c) && folded[|g| + 1..] == Lower(d);
    CaseFolding(c, d);
  }

  /** A key's position is that of the last indexed chunk that has it. */
  ghost predicate IsLastWithKey(chunks: seq<Chunk>, n: nat, key: string, i: nat)
    requires n <= |chunks|
  {
    && i < n && Indexed(chunks[i]) && Key(chunks[i].framework, chunks[i].controlId) == key
    && forall j :: i < j < n ==> !(Indexed(chunks[j]) && Key(chunks[j].framework, chunks[j].controlId) == key)
  }

  lemma {:induction false} PositionsAreLast(chunks: seq<Chunk>, n: nat, key: string)
    requires n <= |chunks|
    ensures key in Positions(chunks, n) ==> IsLastWithKey(chunks, n, key, Positions(chunks, n)[key])
    ensures key !in Positions(chunks, n) ==> forall i :: 0 <= i < n && Indexed(chunks[i]) ==> Key(chunks[i].framework, chunks[i].controlId) != key
  {
    if n > 0 { PositionsAreLast(chunks, n - 1, key); }
  }

  lemma {:induction false} FirstIgnoringCaseIsStored(keys: seq<string>, key: string)
    ensures var found := FirstIgnoringCase(keys, key);
            && (found.Some? ==> found.value in keys && Lower(found.value) == Lower(key))
            && (found.None? ==> forall k :: k in keys ==> Lower(k) != Lower(key))
  {
    if keys != [] { FirstIgnoringCaseIsStored(keys[1..], key); }
  }

  /** If the queried framework is nested in no stored one, nor the other way round, a lookup finds
      exactly what a scan for the last matching chunk finds, and the case-insensitive fallback never
      finds anything. */
  lemma LookupIsScan(chunks: seq<Chunk>, framework: string, controlId: string)
    requires forall c :: c in chunks ==> !Nested(framework, c.framework) && !Nested(c.framework, framework)
    ensures Lookup(chunks, framework, controlId) == LastMatch(chunks, framework, controlId, |chunks|)
    ensures Key(framework, controlId) !in Positions(chunks, |chunks|) ==>
              FirstIgnoringCase(KeyOrder(chunks, |chunks|), Key(framework, controlId)).None?
  {
    var n, key := |chunks|, Key(framework, controlId);
    PositionsAreLast(chunks, n, key);
    forall c | c in chunks && Indexed(c) ensures Key(c.framework, c.controlId) == key <==> Matches(c, framework, controlId) {
      CaseMappingExactly(c.framework, framework);
      CaseMappingExactly(c.controlId, controlId);
      if Key(c.framework, c.controlId) == key { FoldedKeysDecide(c.framework, c.controlId, framework, controlId); }
    }
    if key !in Positions(chunks, n) {
      var stored := FirstIgnoringCase(KeyOrder(chunks, n), key);
      FirstIgnoringCaseIsStored(KeyOrder(chunks, n), key);
      KeysArePositions(chunks, n);
      if stored.Some? {
        PositionsAreLast(chunks, n, stored.value);
        var c := chunks[Positions(chunks, n)[stored.value]];
        FoldedKeysDecide(c.framework, c.controlId, framework, controlId);
      }
    }
  }

  // ----- Lookups without assumptions on names -----

  /** Chunk `i` is the first indexed one whose key is, up to case, this one. */
  ghost predicate IsFirstIgnoringCase(chunks: seq<Chunk>, n: nat, key: string, i: nat)
    requires n <= |chunks|
  {
    && i < n && Indexed(chunks[i]) && Lower(Key(chunks[i].framework, chunks[i].controlId)) == Lower(key)
    && forall j :: 0 <= j < i && Indexed(chunks[j]) ==> Lower(Key(chunks[j].framework, chunks[j].controlId)) != Lower(key)
  }

  lemma {:induction false} FirstOfOneMore(keys: seq<string>, last: string, key: string)
    ensures FirstIgnoringCase(keys + [last], key) ==
            if FirstIgnoringCase(keys, key).Some? then FirstIgnoringCase(keys, key)
            else if Lower(last) == Lower(key) then Some(last) else None
  {
    if keys != [] {
      assert (keys + [last])[1..] == keys[1..] + [last];
      FirstOfOneMore(keys[1..], last, key);
    }
  }

  lemma {:induction false} FirstKeyExactly(chunks: seq<Chunk>, n: nat, key: string)
    requires n <= |chunks|
    ensures FirstIgnoringCase(KeyOrder(chunks, n), key).None? <==>
              forall i :: 0 <= i < n && Indexed(chunks[i]) ==> Lower(Key(chunks[i].framework, chunks[i].controlId)) != Lower(key)
    ensures forall i: nat :: IsFirstIgnoringCase(chunks, n, key, i) ==>
              FirstIgnoringCase(KeyOrder(chunks, n), key) == Some(Key(chunks[i].framework, chunks[i].controlId))
  {
    if n > 0 {
      FirstKeyExactly(chunks, n - 1, key);
      var order, c := KeyOrder(chunks, n - 1), chunks[n - 1];
      FirstOfOneMore(order, Key(c.framework, c.controlId), key);
      KeysArePositions(chunks, n - 1);
      FirstIgnoringCaseIsStored(order, key);
      forall i: nat | IsFirstIgnoringCase(chunks, n, key, i) && i < n - 1 ensures IsFirstIgnoringCase(chunks, n - 1, key, i) {}
    }
  }

  /** For any names: a lookup finds the last chunk with exactly the key, if there is one. */
  lemma ExactKeyIsPreferred(chunks: seq<Chunk>, framework: string, controlId: string, i: nat)
    requires IsLastWithKey(chunks, |chunks|, Key(framework, controlId), i)
    ensures Lookup(chunks, framework, controlId) == Some(i)
  {
    PositionsAreLast(chunks, |chunks|, Key(framework, controlId));
  }

  /** For any names: without an exact key, a lookup finds the last chunk with the key that came first
      among those equal up to case. */
  lemma FirstEqualKeyIsNext(chunks: seq<Chunk>, framework: string, controlId: string, first: nat, i: nat)
    requires forall k: nat :: !IsLastWithKey(chunks, |chunks|, Key(framework, controlId), k)
    requires IsFirstIgnoringCase(chunks, |chunks|, Key(framework, controlId), first)
    requires IsLastWithKey(chunks, |chunks|, Key(chunks[first].framework, chunks[first].controlId), i)
    ensures Lookup(chunks, framework, controlId) == Some(i)
  {
    var n, key := |chunks|, Key(framework, controlId);
    PositionsAreLast(chunks, n, key);
    FirstKeyExactly(chunks, n, key);
    PositionsAreLast(chunks, n, Key(chunks[first].framework, chunks[first].controlId));
  }

  /** For any names: a lookup finds nothing exactly if no indexed chunk has the key up to case. */
  lemma NothingFoundIff(chunks: seq<Chunk>, framework: string, controlId: string)
    ensures Lookup(chunks, framework, controlId).None? <==>
              forall i :: 0 <= i < |chunks| && Indexed(chunks[i]) ==>
                Lower(Key(chunks[i].framework, chunks[i].controlId)) != Lower(Key(framework, controlId))
  {
    var n, key := |chunks|, Key(framework, controlId);
    PositionsAreLast(chunks, n, key);
    FirstKeyExactly(chunks, n, key);
    KeysArePositions(chunks, n);
    FirstIgnoringCaseIsStored(KeyOrder(chunks, n), key);
  }

  ghost predicate LookupAgreesFor(frameworks: set<string>) {
    forall chunks: seq<Chunk>, framework, controlId ::
      framework in frameworks && (forall c :: c in chunks ==> c.framework in frameworks) ==>
        Lookup(chunks, framework, controlId) == LastMatch(chunks, framework, controlId, |chunks|)
  }

  /** A control of a nested framework is also found under the other framework's name. */
  lemma NestedFrameworksCollide(inner: string, outer: string) returns (chunks: seq<Chunk>, controlId: string)
    requires Nested(inner, outer)
    ensures chunks == [Chunk(TESTING_CRITERIA, outer, "X")]
    ensures Lookup(chunks, inner, controlId) == Some(0) && LastMatch(chunks, inner, controlId, |chunks|) == None
  {
    var rest := Lower(outer)[|inner| + 1..];
    controlId := rest + ":X";
    chunks := [Chunk(TESTING_CRITERIA, outer, "X")];
    var stored, key := Key(outer, "X"), Key(inner, controlId);
    FoldedKey(outer, "X");
    FoldedKey(inner, controlId);
    assert Lower(outer) == Lower(inner) + ":" + rest;
    CaseFolding(outer, outer);
    assert Lower(rest) == rest by {
      forall i | 0 <= i < |rest| ensures Lower(rest)[i] == rest[i] {
        assert rest[i] == Lower(outer)[|inner| + 1 + i] == Lower(Lower(outer))[|inner| + 1 + i];
      }
    }
    assert Lower(controlId) == rest + ":" + Lower("X");
    assert Lower(inner) + ":" + (rest + ":" + Lower("X")) == (Lower(inner) + ":" + rest) + ":" + Lower("X");
    assert Lower(stored) == Lower(key);
    assert Positions(chunks, 0) == map[] && Positions(chunks, 1) == map[stored := 0];
    assert KeyOrder(chunks, 0) == [] && KeyOrder(chunks, 1) == [stored];
    assert FirstIgnoringCase([stored], key) == Some(stored);
    assert |Lower(inner)| != |Lower(outer)|;
  }

  /** Lookups agree with the scan, for all chunks and controls of the given frameworks, exactly
      when no framework's name followed by a colon starts another's. */
  lemma LookupAgreesIff(frameworks: set<string>)
    ensures LookupAgreesFor(frameworks) <==> forall f, g :: f in frameworks && g in frameworks ==> !Nested(f, g)
  {
    if forall f, g :: f in frameworks && g in frameworks ==> !Nested(f, g) {
      forall chunks: seq<Chunk>, framework, controlId |
        framework in frameworks && (forall c :: c in chunks ==> c.framework in frameworks)
        ensures Lookup(chunks, framework, controlId) == LastMatch(chunks, framework, controlId, |chunks|)
      {
        LookupIsScan(chunks, framework, controlId);
      }
    } else {
      var inner, outer :| inner in frameworks && outer in frameworks && Nested(inner, outer);
      var chunks, controlId := NestedFrameworksCollide(inner, outer);
    }
  }

  /** Framework names without colons are never nested. */
  lemma NestedNamesHaveColons(inner: string, outer: string)
    requires Nested(inner, outer)
    ensures ':' in outer
  {
    assert Lower(outer)[|inner|] == (Lower(inner) + ":")[|inner|] == ':';
    assert outer[|inner|] == ':';
  }
}
