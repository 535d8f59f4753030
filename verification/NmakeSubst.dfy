/** The substitution engine of win/nmakehlp.c: a linked list of pairs and the in-place rewriting of
    each input line. Strings are C strings; a buffer holds one up to its terminating NUL. */
module NmakeSubst {

  const BUFFER_SIZE := 1024

  datatype Pair = Pair(key: string, value: string)

  // ----- specification on strings

  /** The first place where key occurs in s at or after i, as strstr finds it; |s| + 1 if none. */
  function Find(s: string, key: string, i: nat): (k: nat)
    requires i <= |s| + 1
    ensures i <= k <= |s| + 1
    ensures k <= |s| ==> key <= s[k..]
    ensures forall j | i <= j < k && j <= |s| :: !(key <= s[j..])
    decreases |s| + 1 - i
  {
    if i == |s| + 1 || key <= s[i..] then i else Find(s, key, i + 1)
  }

  function ReplaceFirst(s: string, p: Pair): string {
    var k := Find(s, p.key, 0);
    if k > |s| then s else s[..k] + p.value + s[k + |p.key|..]
  }

  /** What one substitution means: around the first occurrence of the key nothing changes. */
  lemma ReplaceFirstIs(s: string, p: Pair, before: string, after: string)
    requires s == before + p.key + after
    requires forall j | 0 <= j < |before| :: !(p.key <= s[j..])
    ensures ReplaceFirst(s, p) == before + p.value + after
  {
    assert s[|before|..] == p.key + after && s[..|before|] == before;
    assert s[|before| + |p.key|..] == after;
    assert Find(s, p.key, 0) == |before|;
  }

  /** The pairs are applied in file order, each to the result of the one before. */
  function Substitute(s: string, pairs: seq<Pair>): string {
    if pairs == [] then s else ReplaceFirst(Substitute(s, pairs[..|pairs| - 1]), pairs[|pairs| - 1])
  }

  /** The key occurs first at i, and t is s with that occurrence replaced. */
  predicate ReplacedAt(s: string, p: Pair, i: nat, t: string) {
    && i + |p.key| <= |s| && s[i..i + |p.key|] == p.key
    && (forall j | 0 <= j < i :: !(p.key <= s[j..]))
    && t == s[..i] + p.value + s[i + |p.key|..]
  }

  /** t is s with the first occurrence of the key, if there is one, replaced. */
  ghost predicate Replaced(s: string, p: Pair, t: string) {
    || (t == s && forall j | 0 <= j <= |s| :: !(p.key <= s[j..]))
    || exists i :: ReplacedAt(s, p, i, t)
  }

  lemma ReplacedIs(s: string, p: Pair)
    ensures Replaced(s, p, ReplaceFirst(s, p))
  {
    var k := Find(s, p.key, 0);
    if k <= |s| {
      assert s[k..][..|p.key|] == s[k..k + |p.key|];
      assert ReplacedAt(s, p, k, ReplaceFirst(s, p));
    }
  }

  ghost predicate Steps(lines: seq<string>, pairs: seq<Pair>) {
    |lines| == |pairs| + 1 && forall i | 0 <= i < |pairs| :: Replaced(lines[i], pairs[i], lines[i + 1])
  }

  /** The line goes through one replacement per pair, in file order. */
  ghost predicate Rewritten(s: string, pairs: seq<Pair>, t: string) {
    exists lines :: Steps(lines, pairs) && lines[0] == s && lines[|pairs|] == t
  }

  lemma RewrittenNext(s: string, pairs: seq<Pair>, t: string, p: Pair, u: string)
    requires Rewritten(s, pairs, t) && Replaced(t, p, u)
    ensures Rewritten(s, pairs + [p], u)
  {
    var lines :| Steps(lines, pairs) && lines[0] == s && lines[|pairs|] == t;
    assert Steps(lines + [u], pairs + [p]);
  }

  lemma {:induction false} SubstituteIs(s: string, pairs: seq<Pair>)
    ensures Rewritten(s, pairs, Substitute(s, pairs))
    decreases |pairs|
  {
    if pairs == [] {
      assert Steps([s], pairs);
    } else {
      var n := |pairs| - 1;
      var t := Substitute(s, pairs[..n]);
      SubstituteIs(s, pairs[..n]);
      ReplacedIs(t, pairs[n]);
      RewrittenNext(s, pairs[..n], t, pairs[n], ReplaceFirst(t, pairs[n]));
      assert pairs[..n] + [pairs[n]] == pairs;
    }
  }

  /** A line in which no key occurs is left alone by the whole list. */
  lemma {:induction false} UntouchedLine(s: string, pairs: seq<Pair>)
    requires forall i, j | 0 <= i < |pairs| && 0 <= j <= |s| :: !(pairs[i].key <= s[j..])
    ensures Substitute(s, pairs) == s
    decreases |pairs|
  {
    if pairs == [] {
    } else {
      var n := |pairs| - 1;
      UntouchedLine(s, pairs[..n]);
      assert forall j | 0 <= j <= |s| :: !(pairs[n].key <= s[j..]);
    }
  }

  lemma SubstituteNext(s: string, pairs: seq<Pair>, i: nat)
    requires i < |pairs|
    ensures Substitute(s, pairs[..i + 1]) == ReplaceFirst(Substitute(s, pairs[..i]), pairs[i])
  {
    assert pairs[..i + 1][..i] == pairs[..i];
  }

  predicate NoNul(s: string) {
    '\0' !in s
  }

  /** Every intermediate line fits the buffer. */
  predicate Fits(s: string, pairs: seq<Pair>) {
    forall i | 0 <= i <= |pairs| :: |Substitute(s, pairs[..i])| < BUFFER_SIZE
  }

  // ----- the list

  class Item {
    const key: string
    const value: string
    var next: Item?
    var live: bool

    constructor (key: string, value: string)
      ensures this.key == key && this.value == value && next == null && live
    {
      this.key, this.value, next, live := key, value, null, true;
    }
  }

  class List {
    var head: Item?
    ghost var nodes: seq<Item>

    /** `nodes` are the live items met on the way from the head, none of them twice. */
    ghost predicate Valid()
      reads this, nodes
    {
      && head == At(nodes, 0)
      && (forall i {:trigger nodes[i].next} | 0 <= i < |nodes| :: nodes[i].next == At(nodes, i + 1))
      && (forall i | 0 <= i < |nodes| :: nodes[i].live)
      && (forall i, j | 0 <= i < j < |nodes| :: nodes[i] != nodes[j])
    }

    static ghost function At(s: seq<Item>, i: nat): Item? {
      if i < |s| then s[i] else null
    }

    static ghost function PairsOf(s: seq<Item>): seq<Pair> {
      seq(|s|, i requires 0 <= i < |s| => Pair(s[i].key, s[i].value))
    }

    constructor ()
      ensures Valid() && nodes == []
    {
      head, nodes := null, [];
    }

    /** list_insert: the pointer-to-pointer walk to the last link; `memory` is whether malloc succeeds. */
    method Insert(key: string, value: string, memory: bool) returns (item: Item?)
      requires Valid()
      modifies this, nodes
      ensures Valid() && (item != null <==> memory)
      ensures !memory ==> nodes == old(nodes)
      ensures memory ==>
        fresh(item) && item.key == key && item.value == value && nodes == old(nodes) + [item]
    {
      if !memory {
        return null;
      }
      item := new Item(key, value);
      if head == null {
        head := item;
      } else {
        var last := head;
        ghost var i := 0;
        while last.next != null
          invariant 0 <= i < |nodes| && last == nodes[i]
          decreases |nodes| - i
        {
          last := last.next;
          i := i + 1;
        }
        last.next := item;
      }
      nodes := nodes + [item];
    }

    /** list_free: each item is released exactly once and never looked at afterwards. */
    method Free() returns (ghost visited: seq<Item>)
      requires Valid()
      modifies nodes
      ensures visited == nodes
      ensures forall n :: n in nodes ==> !n.live
    {
      var item := head;
      ghost var all, k := nodes, 0;
      visited := [];
      while item != null
        invariant 0 <= k <= |all| && visited == all[..k] && item == At(all, k)
        invariant forall i {:trigger all[i].next} | 0 <= i < |all| :: all[i].next == At(all, i + 1)
        invariant forall i | k <= i < |all| :: all[i].live
        invariant forall i | 0 <= i < k :: !all[i].live
        decreases |all| - k
      {
        var tmp := item;
        item := item.next;
        assert tmp.live;
        tmp.live := false;
        visited := visited + [tmp];
        k := k + 1;
      }
    }
  }

  // ----- the buffers

  ghost predicate Holds(a: array<char>, s: string)
    reads a
  {
    NoNul(s) && |s| < a.Length && a[..|s|] == s && a[|s|] == '\0'
  }

  /** `while (...) *cp++ = *sp++` from a string into the buffer at cp. */
  method Append(a: array<char>, cp: nat, s: string) returns (cp': nat)
    requires cp + |s| <= a.Length
    modifies a
    ensures cp' == cp + |s| && a[..cp'] == old(a[..cp]) + s
  {
    var i := 0;
    while i < |s|
      invariant 0 <= i <= |s| && a[..cp + i] == old(a[..cp]) + s[..i]
    {
      a[cp + i] := s[i];
      i := i + 1;
    }
    cp' := cp + i;
  }

  /** The new line in szCopy: what precedes the key, the value, what follows the key. */
  method BuildCopy(szCopy: array<char>, before: string, value: string, after: string)
    requires |before + value + after| < szCopy.Length && NoNul(before + value + after)
    modifies szCopy
    ensures Holds(szCopy, before + value + after)
  {
    var cp := Append(szCopy, 0, before);
    cp := Append(szCopy, cp, value);
    cp := Append(szCopy, cp, after);
    szCopy[cp] := '\0';
    assert szCopy[..cp] == before + value + after;
  }

  /** One substitution of one line: rebuilt in szCopy, then copied back over szBuffer. */
  method ReplaceInBuffer(szBuffer: array<char>, szCopy: array<char>, key: string, value: string, ghost s: string)
    requires szBuffer.Length == szCopy.Length == BUFFER_SIZE && szBuffer != szCopy
    requires Holds(szBuffer, s) && NoNul(value)
    requires |ReplaceFirst(s, Pair(key, value))| < BUFFER_SIZE
    modifies szBuffer, szCopy
    ensures Holds(szBuffer, ReplaceFirst(s, Pair(key, value)))
  {
    var n := Length(szBuffer, s);
    var line := szBuffer[..n];
    var m := Find(line, key, 0);
    if m <= n {
      assert line == s && key <= line[m..];
      var op := m + |key|;
      ReplacementHasNoNul(s, Pair(key, value));
      BuildCopy(szCopy, line[..m], value, line[op..]);
      CopyBuffer(szBuffer, szCopy);
      SameContent(szBuffer[..], szCopy[..], |ReplaceFirst(s, Pair(key, value))|);
    }
  }

  lemma SameContent(a: string, b: string, n: nat)
    requires a == b && n < |a|
    ensures a[..n] == b[..n] && a[n] == b[n]
  {}

  lemma ReplacementHasNoNul(s: string, p: Pair)
    requires NoNul(s) && NoNul(p.value)
    ensures NoNul(ReplaceFirst(s, p))
  {}

  /** memcpy of a whole buffer. */
  method CopyBuffer(to: array<char>, from: array<char>)
    requires to.Length == from.Length && to != from
    modifies to
    ensures to[..] == from[..]
  {
    var i := 0;
    while i < to.Length
      invariant 0 <= i <= to.Length && to[..i] == from[..i]
    {
      to[i] := from[i];
      i := i + 1;
    }
  }

  /** strlen. */
  method Length(a: array<char>, ghost s: string) returns (n: nat)
    requires Holds(a, s)
    ensures n == |s|
  {
    n := 0;
    assert forall k | 0 <= k < |s| :: a[..|s|][k] == s[k] && s[k] in s;
    while a[n] != '\0'
      invariant n <= |s|
      decreases |s| - n
    {
      n := n + 1;
    }
  }

  /** The inner loop of SubstituteFile over the list, for one line. */
  method SubstituteLine(szBuffer: array<char>, szCopy: array<char>, list: List, ghost s: string)
    requires szBuffer.Length == szCopy.Length == BUFFER_SIZE && szBuffer != szCopy
    requires list.Valid() && Holds(szBuffer, s) && Fits(s, List.PairsOf(list.nodes))
    requires forall n :: n in list.nodes ==> NoNul(n.value)
    modifies szBuffer, szCopy
    ensures Holds(szBuffer, Substitute(s, List.PairsOf(list.nodes)))
  {
    ghost var nodes, i := list.nodes, 0;
    ghost var pairs := List.PairsOf(nodes);
    var p := list.head;
    while p != null
      invariant 0 <= i <= |pairs| && p == List.At(nodes, i)
      invariant Holds(szBuffer, Substitute(s, pairs[..i]))
      decreases |pairs| - i
    {
      SubstituteNext(s, pairs, i);
      assert pairs[i] == Pair(p.key, p.value) && NoNul(p.value);
      ReplaceInBuffer(szBuffer, szCopy, p.key, p.value, Substitute(s, pairs[..i]));
      p := p.next;
      i := i + 1;
    }
    assert pairs[..i] == pairs;
  }

  // ----- the substitution file

  predicate IsSpace(c: char) {
    c in " \t\n\r" || c as int == 11 || c as int == 12
  }

  /** Tab, line feed, vertical tab, form feed, carriage return and space. */
  const SPACES: set<int> := {9, 10, 11, 12, 13, 32}

  predicate IsEol(c: char) {
    c == '\r' || c == '\n'
  }

  /** The length of the longest prefix of s[i..] whose characters satisfy p, added to i. */
  function Span(s: string, i: nat, p: char -> bool): (k: nat)
    requires i <= |s|
    ensures i <= k <= |s|
    ensures (forall j | i <= j < k :: p(s[j])) && (k < |s| ==> !p(s[k]))
    decreases |s| - i
  {
    if i < |s| && p(s[i]) then Span(s, i + 1, p) else i
  }

  function ParseLine(line: string): Pair {
    var ks := Span(line, 0, IsSpace);
    var ke := Span(line, ks, c => !IsSpace(c));
    var vs := Span(line, ke, IsSpace);
    var ve := Span(line, vs, c => !IsEol(c));
    Pair(line[ks..ke], line[vs..ve])
  }

  lemma SpanIs(s: string, i: nat, k: nat, p: char -> bool)
    requires i <= k <= |s| && (forall j | i <= j < k :: p(s[j])) && (k < |s| ==> !p(s[k]))
    ensures Span(s, i, p) == k
  {}

  lemma SpacesAre()
    ensures forall c :: IsSpace(c) <==> c as int in SPACES
  {}

  /** A line laid out as the format asks gives back its key and its value, spaces within the value
      included. */
  lemma LayoutIsParsed(w1: string, key: string, w2: string, value: string, eol: string)
    requires (forall c | c in w1 + w2 :: c as int in SPACES) && (forall c | c in key :: c as int !in SPACES)
    requires key != [] && w2 != [] && '\r' !in value && '\n' !in value
    requires (value != [] ==> value[0] as int !in SPACES) && (value == [] ==> eol == [])
    requires eol != [] ==> eol[0] in {'\r', '\n'}
    ensures ParseLine(w1 + key + w2 + value + eol) == Pair(key, value)
  {
    SpacesAre();
    var line := w1 + key + w2 + value + eol;
    var ks := |w1|;
    var ke := ks + |key|;
    var vs := ke + |w2|;
    var ve := vs + |value|;
    assert line[..ks] == w1 && line[ks..ke] == key && line[ke..vs] == w2 && line[vs..ve] == value && line[ve..] == eol;
    forall j | 0 <= j < ks ensures IsSpace(line[j]) { assert line[j] == w1[j] && w1[j] in w1 + w2; }
    forall j | ks <= j < ke ensures !IsSpace(line[j]) { assert line[j] == key[j - ks] && key[j - ks] in key; }
    forall j | ke <= j < vs ensures IsSpace(line[j]) { assert line[j] == w2[j - ke] && w2[j - ke] in w1 + w2; }
    forall j | vs <= j < ve ensures !IsEol(line[j]) { assert line[j] == value[j - vs] && value[j - vs] in value; }
    SpanIs(line, 0, ks, IsSpace);
    SpanIs(line, ks, ke, c => !IsSpace(c));
    SpanIs(line, ke, vs, IsSpace);
    SpanIs(line, vs, ve, c => !IsEol(c));
  }

  function ParseAll(lines: seq<string>): seq<Pair> {
    seq(|lines|, i requires 0 <= i < |lines| => ParseLine(lines[i]))
  }

  /** The pairs that reach the list: those for which list_insert gets memory. */
  function Stored(pairs: seq<Pair>, memory: nat -> bool): seq<Pair> {
    if pairs == [] then []
    else
      var n := |pairs| - 1;
      Stored(pairs[..n], memory) + (if memory(n) then [pairs[n]] else [])
  }

  lemma StoredNext(pairs: seq<Pair>, memory: nat -> bool, i: nat)
    requires i < |pairs|
    ensures Stored(pairs[..i + 1], memory) == Stored(pairs[..i], memory) + (if memory(i) then [pairs[i]] else [])
  {
    assert pairs[..i + 1][..i] == pairs[..i];
  }

  /** With enough memory all pairs reach the list. */
  lemma {:induction false} AllStored(pairs: seq<Pair>, memory: nat -> bool)
    requires forall i | 0 <= i < |pairs| :: memory(i)
    ensures Stored(pairs, memory) == pairs
    decreases |pairs|
  {
    if pairs == [] {
    } else {
      AllStored(pairs[..|pairs| - 1], memory);
    }
  }

  /** Whatever the memory, only pairs of the file do. */
  lemma {:induction false} StoredIsRead(pairs: seq<Pair>, memory: nat -> bool)
    ensures forall p | p in Stored(pairs, memory) :: p in pairs
    decreases |pairs|
  {
    if pairs == [] {
    } else {
      StoredIsRead(pairs[..|pairs| - 1], memory);
    }
  }

  /** The four pointer walks over one line of the substitution file. */
  method ReadPair(line: string) returns (p: Pair)
    ensures p == ParseLine(line)
  {
    var ks := 0;
    while ks < |line| && IsSpace(line[ks])
      invariant ks <= |line| && forall j | 0 <= j < ks :: IsSpace(line[j])
    {
      ks := ks + 1;
    }
    SpanIs(line, 0, ks, IsSpace);
    var ke := ks;
    while ke < |line| && !IsSpace(line[ke])
      invariant ks <= ke <= |line| && forall j | ks <= j < ke :: !IsSpace(line[j])
    {
      ke := ke + 1;
    }
    SpanIs(line, ks, ke, c => !IsSpace(c));
    var vs := ke;
    while vs < |line| && IsSpace(line[vs])
      invariant ke <= vs <= |line| && forall j | ke <= j < vs :: IsSpace(line[j])
    {
      vs := vs + 1;
    }
    SpanIs(line, ke, vs, IsSpace);
    var ve := vs;
    while ve < |line| && !IsEol(line[ve])
      invariant vs <= ve <= |line| && forall j | vs <= j < ve :: !IsEol(line[j])
    {
      ve := ve + 1;
    }
    SpanIs(line, vs, ve, c => !IsEol(c));
    return Pair(line[ks..ke], line[vs..ve]);
  }

  lemma NodesHaveNoNul(nodes: seq<Item>, substitutions: seq<string>, memory: nat -> bool)
    requires forall l | l in substitutions :: NoNul(l)
    requires List.PairsOf(nodes) == Stored(ParseAll(substitutions), memory)
    ensures forall n :: n in nodes ==> NoNul(n.value)
  {
    StoredIsRead(ParseAll(substitutions), memory);
    forall n | n in nodes ensures NoNul(n.value) {
      var i :| 0 <= i < |nodes| && nodes[i] == n;
      assert List.PairsOf(nodes)[i] in List.PairsOf(nodes);
      var j :| 0 <= j < |substitutions| && ParseAll(substitutions)[j] == List.PairsOf(nodes)[i];
      assert substitutions[j] in substitutions;
    }
  }

  lemma PairsOfAppended(nodes: seq<Item>, item: Item)
    ensures List.PairsOf(nodes + [item]) == List.PairsOf(nodes) + [Pair(item.key, item.value)]
  {}

  /** The list after reading the substitution file: its pairs in file order, but for those whose
      list_insert got no memory, which are dropped without a word. */
  method ReadSubstitutions(substitutions: seq<string>, memory: nat -> bool) returns (list: List)
    ensures fresh(list) && list.Valid() && fresh(list.nodes)
    ensures List.PairsOf(list.nodes) == Stored(ParseAll(substitutions), memory)
  {
    list := new List();
    for i := 0 to |substitutions|
      invariant fresh(list) && list.Valid() && fresh(list.nodes)
      invariant List.PairsOf(list.nodes) == Stored(ParseAll(substitutions)[..i], memory)
    {
      var p := ReadPair(substitutions[i]);
      ghost var before := list.nodes;
      StoredNext(ParseAll(substitutions), memory, i);
      var item := list.Insert(p.key, p.value, memory(i));
      if item != null {
        PairsOfAppended(before, item);
      }
    }
    assert ParseAll(substitutions)[..|substitutions|] == ParseAll(substitutions);
  }

  /** fgets, the list, printf: one line of SubstituteFile. */
  method RewriteLine(szBuffer: array<char>, szCopy: array<char>, list: List, line: string)
    returns (output: string)
    requires szBuffer.Length == szCopy.Length == BUFFER_SIZE && szBuffer != szCopy
    requires list.Valid() && NoNul(line) && Fits(line, List.PairsOf(list.nodes))
    requires forall n :: n in list.nodes ==> NoNul(n.value)
    modifies szBuffer, szCopy
    ensures output == Substitute(line, List.PairsOf(list.nodes))
  {
    ghost var pairs := List.PairsOf(list.nodes);
    assert pairs[..0] == [] && |Substitute(line, pairs[..0])| < BUFFER_SIZE;
    var n := Append(szBuffer, 0, line);
    szBuffer[n] := '\0';
    assert szBuffer[..n] == line;
    SubstituteLine(szBuffer, szCopy, list, line);
    n := Length(szBuffer, Substitute(line, pairs));
    output := szBuffer[..n];
  }

  /** The outer loop of SubstituteFile over the input lines. */
  method RewriteLines(list: List, lines: seq<string>) returns (output: seq<string>)
    requires list.Valid() && (forall n :: n in list.nodes ==> NoNul(n.value))
    requires forall l | l in lines :: NoNul(l) && Fits(l, List.PairsOf(list.nodes))
    ensures |output| == |lines|
    ensures forall i | 0 <= i < |lines| :: output[i] == Substitute(lines[i], List.PairsOf(list.nodes))
  {
    var szBuffer, szCopy := new char[BUFFER_SIZE], new char[BUFFER_SIZE];
    ghost var pairs := List.PairsOf(list.nodes);
    output := [];
    for i := 0 to |lines|
      invariant |output| == i && list.Valid()
      invariant forall j | 0 <= j < i :: output[j] == Substitute(lines[j], pairs)
    {
      var line := lines[i];
      assert line in lines;
      line := RewriteLine(szBuffer, szCopy, list, line);
      output := output + [line];
    }
  }

  /** SubstituteFile: every line of the input with all stored substitutions made in file order. */
  method SubstituteFile(substitutions: seq<string>, lines: seq<string>, memory: nat -> bool)
    returns (output: seq<string>)
    requires forall l | l in substitutions :: NoNul(l)
    requires forall l | l in lines :: NoNul(l) && Fits(l, Stored(ParseAll(substitutions), memory))
    ensures |output| == |lines|
    ensures forall i | 0 <= i < |lines| :: output[i] == Substitute(lines[i], Stored(ParseAll(substitutions), memory))
    ensures forall i | 0 <= i < |lines| :: Rewritten(lines[i], Stored(ParseAll(substitutions), memory), output[i])
  {
    var list := ReadSubstitutions(substitutions, memory);
    NodesHaveNoNul(list.nodes, substitutions, memory);
    output := RewriteLines(list, lines);
    ghost var visited := list.Free();
    forall i | 0 <= i < |lines| ensures Rewritten(lines[i], Stored(ParseAll(substitutions), memory), output[i]) {
      SubstituteIs(lines[i], Stored(ParseAll(substitutions), memory));
    }
  }
}
