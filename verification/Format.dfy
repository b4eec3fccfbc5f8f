/** The format strings of log sinks: compiling to parts, and what a compiled format means. */
module Format {

  datatype Part = Constant(text: string) | Key(name: string)

  type Attributes = map<string, string>

  // ----- placeholders -----

  predicate IsWord(c: char) {
    '0' <= c <= '9' || 'a' <= c <= 'z' || 'A' <= c <= 'Z' || c == '_'
  }

  /** The pattern of the source: `s[p..q]` is `{`, one or more word characters, `}`. */
  predicate IsPlaceholder(s: string, p: nat, q: nat) {
    && p + 2 < q <= |s| && s[p] == '{' && s[q - 1] == '}'
    && forall k :: p < k < q - 1 ==> IsWord(s[k])
  }

  /** Where the word that starts at `p` ends. */
  function WordEnd(s: string, p: nat): (e: nat)
    requires p <= |s|
    ensures p <= e <= |s|
    ensures forall k :: p <= k < e ==> IsWord(s[k])
    ensures e < |s| ==> !IsWord(s[e])
    decreases |s| - p
  {
    if p < |s| && IsWord(s[p]) then WordEnd(s, p + 1) else p
  }

  /** The end of the placeholder at `p`, or `p` if there is none. */
  function MatchEnd(s: string, p: nat): (q: nat)
    requires p <= |s|
    ensures p <= q <= |s| && (q != p ==> p + 2 < q)
    ensures if q == p then forall k :: !IsPlaceholder(s, p, k) else IsPlaceholder(s, p, q)
  {
    if p < |s| && s[p] == '{' then
      var e := WordEnd(s, p + 1);
      if e > p + 1 && e < |s| && s[e] == '}' then e + 1 else p
    else p
  }

  lemma {:induction false} PlaceholderEndsOnce(s: string, p: nat, q: nat, r: nat)
    requires IsPlaceholder(s, p, q) && IsPlaceholder(s, p, r)
    ensures q == r
  {
    assert !IsWord(s[q - 1]) && !IsWord(s[r - 1]);
  }

  /** The first placeholder at or after `from`, or the end of the string. */
  function Search(s: string, from: nat): (p: nat)
    requires from <= |s|
    ensures from <= p <= |s|
    ensures forall k :: from <= k < p ==> MatchEnd(s, k) == k
    ensures p < |s| ==> MatchEnd(s, p) > p
    decreases |s| - from
  {
    if from == |s| || MatchEnd(s, from) > from then from else Search(s, from + 1)
  }

  // ----- compiling -----

  function ConstantPart(s: string, from: nat, to: nat): seq<Part>
    requires from <= to <= |s|
  {
    if from < to then [Constant(s[from..to])] else []
  }

  function Compile(s: string, from: nat): seq<Part>
    requires from <= |s|
    decreases |s| - from
  {
    var p := Search(s, from);
    if p == |s| then ConstantPart(s, from, |s|)
    else
      var q := MatchEnd(s, p);
      ConstantPart(s, from, p) + [Key(s[p + 1..q - 1])] + Compile(s, q)
  }

  // ----- what a compiled format means -----

  function Lookup(m: Attributes, name: string): string {
    if name in m then m[name] else ""
  }

  function RenderPart(part: Part, m: Attributes): string {
    match part
    case Constant(text) => text
    case Key(name) => Lookup(m, name)
  }

  function Render(parts: seq<Part>, m: Attributes): string {
    if parts == [] then "" else RenderPart(parts[0], m) + Render(parts[1..], m)
  }

  /** The meaning of a format string: left to right, a placeholder becomes the attribute it names and
      any other character stands for itself. */
  function Substitute(s: string, from: nat, m: Attributes): string
    requires from <= |s|
    decreases |s| - from
  {
    if from == |s| then ""
    else
      var q := MatchEnd(s, from);
      if q > from then Lookup(m, s[from + 1..q - 1]) + Substitute(s, q, m)
      else [s[from]] + Substitute(s, from + 1, m)
  }

  function SourceOf(part: Part): string {
    match part
    case Constant(text) => text
    case Key(name) => "{" + name + "}"
  }

  /** The parts with their braces put back. */
  function Source(parts: seq<Part>): string {
    if parts == [] then "" else SourceOf(parts[0]) + Source(parts[1..])
  }

  ghost predicate PartOk(part: Part) {
    match part
    case Constant(text) => text != "" && forall p, q :: !IsPlaceholder(text, p, q)
    case Key(name) => name != "" && forall k :: 0 <= k < |name| ==> IsWord(name[k])
  }

  /** No empty constant, none that contains a placeholder, and no two in a row. */
  ghost predicate NormalForm(parts: seq<Part>) {
    && (forall i :: 0 <= i < |parts| ==> PartOk(parts[i]))
    && (forall i :: 0 < i < |parts| ==> parts[i - 1].Key? || parts[i].Key?)
  }

  // ----- rendering a compiled format is substituting -----

  lemma {:induction false} RenderAppend(a: seq<Part>, b: seq<Part>, m: Attributes)
    ensures Render(a + b, m) == Render(a, m) + Render(b, m)
  {
    hide RenderPart;
    if a == [] {
      assert a + b == b;
    } else {
      RenderAppend(a[1..], b, m);
      assert (a + b)[1..] == a[1..] + b;
      Associates(RenderPart(a[0], m), Render(a[1..], m), Render(b, m));
    }
  }

  lemma {:induction false} SubstituteConstant(s: string, from: nat, to: nat, m: Attributes)
    requires from <= to <= |s| && forall k :: from <= k < to ==> MatchEnd(s, k) == k
    ensures Substitute(s, from, m) == s[from..to] + Substitute(s, to, m)
    decreases |s| - from
  {
    hide MatchEnd, IsPlaceholder, Lookup;
    if from == to {
      assert s[from..to] == "";
    } else {
      SubstituteConstant(s, from + 1, to, m);
      assert MatchEnd(s, from) == from;
      assert Substitute(s, from, m) == [s[from]] + Substitute(s, from + 1, m);
      Associates([s[from]], s[from + 1..to], Substitute(s, to, m));
      assert s[from..to] == [s[from]] + s[from + 1..to];
    }
  }

  lemma {:induction false} RenderConstantPart(s: string, from: nat, to: nat, m: Attributes)
    requires from <= to <= |s|
    ensures Render(ConstantPart(s, from, to), m) == s[from..to]
  {
  }

  lemma {:induction false} RenderKey(parts: seq<Part>, name: string, rest: seq<Part>, m: Attributes)
    ensures Render(parts + [Key(name)] + rest, m) == Render(parts, m) + (Lookup(m, name) + Render(rest, m))
  {
    RenderAppend(parts + [Key(name)], rest, m);
    RenderAppend(parts, [Key(name)], m);
    assert Render([Key(name)], m) == Lookup(m, name);
    Associates(Render(parts, m), Lookup(m, name), Render(rest, m));
  }

  lemma {:induction false} RenderCompiled(s: string, from: nat, m: Attributes)
    requires from <= |s|
    ensures Render(Compile(s, from), m) == Substitute(s, from, m)
    decreases |s| - from
  {
    hide Render, IsPlaceholder, Lookup, MatchEnd, ConstantPart;
    var p := Search(s, from);
    SubstituteConstant(s, from, p, m);
    RenderConstantPart(s, from, p, m);
    if p < |s| {
      var q := MatchEnd(s, p);
      RenderCompiled(s, q, m);
      RenderKey(ConstantPart(s, from, p), s[p + 1..q - 1], Compile(s, q), m);
    } else {
      assert s[from..p] + "" == s[from..p];
    }
  }

  // ----- and loses nothing -----

  lemma {:induction false} SourceAppend(a: seq<Part>, b: seq<Part>)
    ensures Source(a + b) == Source(a) + Source(b)
  {
    hide SourceOf;
    if a == [] {
      assert a + b == b;
    } else {
      SourceAppend(a[1..], b);
      assert (a + b)[1..] == a[1..] + b;
      Associates(SourceOf(a[0]), Source(a[1..]), Source(b));
    }
  }

  lemma {:induction false} SourceKey(parts: seq<Part>, name: string, rest: seq<Part>)
    ensures Source(parts + [Key(name)] + rest) == Source(parts) + (("{" + name + "}") + Source(rest))
  {
    hide Source;
    SourceAppend(parts + [Key(name)], rest);
    SourceAppend(parts, [Key(name)]);
    SourceOne(Key(name));
    Associates(Source(parts), "{" + name + "}", Source(rest));
  }

  lemma {:induction false} SourceOne(part: Part)
    ensures Source([part]) == SourceOf(part)
  {
    hide SourceOf;
    assert SourceOf(part) + "" == SourceOf(part);
  }

  lemma {:induction false} Associates(a: string, b: string, c: string)
    ensures (a + b) + c == a + (b + c)
  {
  }

  lemma {:induction false} PlaceholderText(s: string, p: nat, q: nat)
    requires IsPlaceholder(s, p, q)
    ensures "{" + s[p + 1..q - 1] + "}" == s[p..q]
  {
  }

  lemma {:induction false} SourceCompiled(s: string, from: nat)
    requires from <= |s|
    ensures Source(Compile(s, from)) == s[from..]
    decreases |s| - from
  {
    hide Source, IsPlaceholder, MatchEnd, ConstantPart;
    var p := Search(s, from);
    SourceConstantPart(s, from, p);
    if p < |s| {
      var q := MatchEnd(s, p);
      SourceCompiled(s, q);
      SourceKey(ConstantPart(s, from, p), s[p + 1..q - 1], Compile(s, q));
      PlaceholderText(s, p, q);
      assert s[from..] == s[from..p] + (s[p..q] + s[q..]);
    }
  }

  lemma {:induction false} SourceConstantPart(s: string, from: nat, to: nat)
    requires from <= to <= |s|
    ensures Source(ConstantPart(s, from, to)) == s[from..to]
  {
  }

  lemma {:induction false} PlaceholderWithin(s: string, from: nat, to: nat, p: nat, q: nat)
    requires from <= to <= |s| && IsPlaceholder(s[from..to], p, q)
    ensures IsPlaceholder(s, from + p, from + q)
  {
    var text := s[from..to];
    forall k | from + p < k < from + q - 1
      ensures IsWord(s[k])
    {
      assert s[k] == text[k - from];
    }
  }

  lemma {:induction false} ConstantPartOk(s: string, from: nat, to: nat)
    requires from <= to <= |s| && forall k :: from <= k < to ==> MatchEnd(s, k) == k
    ensures forall i :: 0 <= i < |ConstantPart(s, from, to)| ==> PartOk(ConstantPart(s, from, to)[i])
  {
    var text := s[from..to];
    forall p, q | IsPlaceholder(text, p, q)
      ensures false
    {
      assert MatchEnd(s, from + p) == from + p;
      PlaceholderWithin(s, from, to, p, q);
    }
  }

  lemma {:induction false} CompiledIsNormal(s: string, from: nat)
    requires from <= |s|
    ensures NormalForm(Compile(s, from))
    decreases |s| - from
  {
    hide PartOk, IsPlaceholder, MatchEnd;
    var p := Search(s, from);
    ConstantPartOk(s, from, p);
    if p < |s| {
      var q := MatchEnd(s, p);
      CompiledIsNormal(s, q);
      KeyOk(s, p, q);
      NormalKey(ConstantPart(s, from, p), Key(s[p + 1..q - 1]), Compile(s, q));
    }
  }

  lemma {:induction false} KeyOk(s: string, p: nat, q: nat)
    requires IsPlaceholder(s, p, q)
    ensures PartOk(Key(s[p + 1..q - 1]))
  {
    var name := s[p + 1..q - 1];
    forall k | 0 <= k < |name|
      ensures IsWord(name[k])
    {
      assert name[k] == s[p + 1 + k];
    }
  }

  lemma {:induction false} NormalKey(before: seq<Part>, key: Part, rest: seq<Part>)
    requires |before| <= 1 && (forall i :: 0 <= i < |before| ==> PartOk(before[i]))
    requires key.Key? && PartOk(key) && NormalForm(rest)
    ensures NormalForm(before + [key] + rest)
  {
    hide PartOk;
    var parts, n := before + [key] + rest, |before|;
    forall i | 0 < i < |parts|
      ensures parts[i - 1].Key? || parts[i].Key?
    {
      if i > n + 1 {
        var j := i - n - 1;
        assert parts[i] == rest[j] && parts[i - 1] == rest[j - 1];
        assert rest[j - 1].Key? || rest[j].Key?;
      }
    }
  }

  // ----- and is the only normal form -----

  lemma {:induction false} KeyIsPlaceholder(parts: seq<Part>)
    requires parts != [] && parts[0].Key? && PartOk(parts[0])
    ensures IsPlaceholder(Source(parts), 0, |parts[0].name| + 2)
  {
    var name, s := parts[0].name, Source(parts);
    assert s == ("{" + name + "}") + Source(parts[1..]);
    forall k | 0 < k < |name| + 1
      ensures IsWord(s[k])
    {
      assert s[k] == name[k - 1];
    }
  }

  /** Nothing starting inside a constant is a placeholder: within the constant none is, and a
      placeholder cannot run into the brace that opens the next key. */
  lemma {:induction false} NoneInConstant(parts: seq<Part>, p: nat, q: nat)
    requires NormalForm(parts) && parts != [] && parts[0].Constant? && p < |parts[0].text|
    ensures !IsPlaceholder(Source(parts), p, q)
  {
    var text, s, n := parts[0].text, Source(parts), |parts[0].text|;
    assert s == text + Source(parts[1..]);
    if IsPlaceholder(s, p, q) {
      if q <= n {
        assert IsPlaceholder(text, p, q) by {
          forall k | p < k < q - 1
            ensures IsWord(text[k])
          {
            assert s[k] == text[k];
          }
        }
      } else {
        NextOpens(parts);
      }
    }
  }

  lemma {:induction false} NextOpens(parts: seq<Part>)
    requires NormalForm(parts) && parts != [] && parts[0].Constant? && |Source(parts)| > |parts[0].text|
    ensures Source(parts)[|parts[0].text|] == '{'
  {
    var rest := parts[1..];
    assert Source(parts) == parts[0].text + Source(rest);
    assert rest != [];
    assert rest[0] == parts[1] && parts[1].Key?;
    assert Source(rest) == ("{" + rest[0].name + "}") + Source(rest[1..]);
  }

  lemma {:induction false} TailIsNormal(parts: seq<Part>)
    requires NormalForm(parts) && parts != []
    ensures NormalForm(parts[1..])
  {
    var rest := parts[1..];
    forall i | 0 < i < |rest|
      ensures rest[i - 1].Key? || rest[i].Key?
    {
      assert rest[i - 1] == parts[i] && rest[i] == parts[i + 1];
      assert parts[i + 1 - 1].Key? || parts[i + 1].Key?;
    }
  }

  /** Two normal forms of the same string begin with the same part. */
  lemma {:induction false} SameHead(a: seq<Part>, b: seq<Part>)
    requires NormalForm(a) && NormalForm(b) && a != [] && b != [] && Source(a) == Source(b)
    ensures a[0] == b[0]
  {
    hide Source, NormalForm, IsPlaceholder;
    HeadOk(a);
    HeadOk(b);
    SourceStarts(a);
    SourceStarts(b);
    if a[0].Key? {
      KeyIsPlaceholder(a);
      KeyMatches(a, b);
    } else if b[0].Key? {
      KeyIsPlaceholder(b);
      KeyMatches(b, a);
    } else {
      NotShorter(a, b);
      NotShorter(b, a);
      assert a[0].text == Source(a)[..|a[0].text|] == b[0].text;
    }
  }

  lemma {:induction false} HeadOk(parts: seq<Part>)
    requires NormalForm(parts) && parts != []
    ensures PartOk(parts[0])
  {
  }

  lemma {:induction false} SourceStarts(parts: seq<Part>)
    requires parts != []
    ensures Source(parts) == SourceOf(parts[0]) + Source(parts[1..])
  {
  }

  lemma {:induction false} KeyName(parts: seq<Part>)
    requires parts != [] && parts[0].Key?
    ensures |Source(parts)| > |parts[0].name| + 1
    ensures parts[0].name == Source(parts)[1..|parts[0].name| + 1]
  {
    hide Source;
    SourceStarts(parts);
    NameWithin(parts[0].name, Source(parts[1..]));
  }

  lemma NameWithin(name: string, rest: string)
    ensures ("{" + name + "}" + rest)[1..|name| + 1] == name
  {
    var s := "{" + name + "}" + rest;
    var middle := s[1..|name| + 1];
    forall k | 0 <= k < |name|
      ensures middle[k] == name[k]
    {
      assert middle[k] == s[k + 1];
    }
  }

  lemma {:induction false} KeyMatches(a: seq<Part>, b: seq<Part>)
    requires NormalForm(a) && NormalForm(b) && a != [] && b != [] && Source(a) == Source(b) && a[0].Key?
    ensures a[0] == b[0]
  {
    hide Source, NormalForm, IsPlaceholder;
    HeadOk(a);
    HeadOk(b);
    KeyIsPlaceholder(a);
    if b[0].Key? {
      KeyIsPlaceholder(b);
      PlaceholderEndsOnce(Source(a), 0, |a[0].name| + 2, |b[0].name| + 2);
      KeyName(a);
      KeyName(b);
    } else {
      NoneInConstant(b, 0, |a[0].name| + 2);
    }
  }

  /** If one of two leading constants were shorter, a key would start where the other still runs on. */
  lemma {:induction false} NotShorter(a: seq<Part>, b: seq<Part>)
    requires NormalForm(a) && NormalForm(b) && a != [] && b != [] && Source(a) == Source(b)
    requires a[0].Constant? && b[0].Constant?
    ensures |a[0].text| >= |b[0].text|
  {
    hide Source, NormalForm, IsPlaceholder;
    SourceStarts(a);
    SourceStarts(b);
    if |a[0].text| < |b[0].text| {
      var n, rest := |a[0].text|, a[1..];
      SecondIsKey(a);
      KeyIsPlaceholder(rest);
      PlaceholderShifts(a[0].text, Source(rest), |rest[0].name| + 2);
      NoneInConstant(b, n, n + |rest[0].name| + 2);
    }
  }

  lemma {:induction false} SecondIsKey(a: seq<Part>)
    requires NormalForm(a) && a != [] && a[0].Constant? && |Source(a)| > |a[0].text|
    ensures |a| > 1 && a[1..] != [] && a[1..][0].Key? && PartOk(a[1..][0])
  {
    SourceStarts(a);
    assert a[1..] != [];
    assert a[1..][0] == a[1] && (a[0].Key? || a[1].Key?);
  }

  lemma {:induction false} PlaceholderShifts(x: string, s: string, q: nat)
    requires IsPlaceholder(s, 0, q)
    ensures IsPlaceholder(x + s, |x|, |x| + q)
  {
    forall k | |x| < k < |x| + q - 1
      ensures IsWord((x + s)[k])
    {
      assert (x + s)[k] == s[k - |x|];
    }
  }

  /** A format has one normal form only. */
  lemma {:induction false} NormalFormUnique(a: seq<Part>, b: seq<Part>)
    requires NormalForm(a) && NormalForm(b) && Source(a) == Source(b)
    ensures a == b
  {
    hide NormalForm, IsPlaceholder, Source, SourceOf;
    if a == [] || b == [] {
      EmptySource(a);
      EmptySource(b);
    } else {
      SameHead(a, b);
      SourceStarts(a);
      SourceStarts(b);
      var x := SourceOf(a[0]);
      assert Source(a[1..]) == Source(a)[|x|..] == Source(b[1..]);
      TailIsNormal(a);
      TailIsNormal(b);
      NormalFormUnique(a[1..], b[1..]);
      assert a == [a[0]] + a[1..] && b == [b[0]] + b[1..];
    }
  }

  lemma {:induction false} EmptySource(parts: seq<Part>)
    requires NormalForm(parts)
    ensures Source(parts) == "" <==> parts == []
  {
    if parts != [] {
      HeadOk(parts);
      SourceStarts(parts);
      assert |SourceOf(parts[0])| > 0;
    }
  }

  // ----- names and values, spelled out -----

  /** `{` name `}` is a placeholder exactly for a non-empty name of digits, ASCII letters and underscores. */
  lemma {:induction false} NamesExactly(name: string)
    ensures Compile("{" + name + "}", 0) == [Key(name)] <==>
      name != "" && forall k :: 0 <= k < |name| ==>
        '0' <= name[k] <= '9' || 'a' <= name[k] <= 'z' || 'A' <= name[k] <= 'Z' || name[k] == '_'
  {
    hide NormalForm, Source, Compile, IsPlaceholder;
    var s := "{" + name + "}";
    CompiledIsNormal(s, 0);
    OneKey(name);
    if Compile(s, 0) != [Key(name)] && PartOk(Key(name)) {
      SourceCompiled(s, 0);
      assert s[0..] == s;
      NormalFormUnique([Key(name)], Compile(s, 0));
    }
  }

  lemma OneKey(name: string)
    ensures NormalForm([Key(name)]) <==> PartOk(Key(name))
    ensures Source([Key(name)]) == "{" + name + "}"
  {
    hide PartOk;
    assert [Key(name)][1..] == [];
    assert NormalForm([Key(name)]) ==> PartOk([Key(name)][0]);
    assert "{" + name + "}" + "" == "{" + name + "}";
  }

  /** A key stands for the attribute it names, or for nothing if there is none; a constant for itself. */
  lemma RendersAttribute(name: string, text: string, m: Attributes)
    ensures Render([Key(name)], m) == if name in m then m[name] else ""
    ensures Render([Constant(text)], m) == text
  {
    assert [Key(name)][1..] == [] && [Constant(text)][1..] == [];
    assert text + "" == text;
  }

  /** At a placeholder the named attribute is substituted, or nothing. */
  lemma SubstitutesName(s: string, p: nat, q: nat, m: Attributes)
    requires IsPlaceholder(s, p, q)
    ensures var name := s[p + 1..q - 1];
      Substitute(s, p, m) == (if name in m then m[name] else "") + Substitute(s, q, m)
  {
    PlaceholderEndsOnce(s, p, MatchEnd(s, p), q);
  }

  /** Anywhere else the character is kept. */
  lemma SubstitutesCharacter(s: string, p: nat, m: Attributes)
    requires p < |s| && forall q :: !IsPlaceholder(s, p, q)
    ensures Substitute(s, p, m) == [s[p]] + Substitute(s, p + 1, m)
  {
    hide IsPlaceholder;
  }

  /** The compiled format is the one normal form of its string, and rendering it with any attributes is
      substituting them in the string: left to right, a placeholder becomes the attribute it names or
      nothing, and any other character is kept. */
  lemma {:induction false} CompileCorrect(s: string, parts: seq<Part>, m: Attributes)
    ensures parts == Compile(s, 0) <==> NormalForm(parts) && Source(parts) == s
    ensures Render(Compile(s, 0), m) == Substitute(s, 0, m)
    ensures forall p: nat, q: nat :: IsPlaceholder(s, p, q) ==>
      var name := s[p + 1..q - 1];
      Substitute(s, p, m) == (if name in m then m[name] else "") + Substitute(s, q, m)
  {
    hide NormalForm, Source, Render, IsPlaceholder;
    CompiledIsNormal(s, 0);
    SourceCompiled(s, 0);
    RenderCompiled(s, 0, m);
    assert s[0..] == s;
    if NormalForm(parts) && Source(parts) == s {
      NormalFormUnique(parts, Compile(s, 0));
    }
    forall p: nat, q: nat | IsPlaceholder(s, p, q)
      ensures p + 2 < q <= |s|
      ensures var name := s[p + 1..q - 1];
        Substitute(s, p, m) == (if name in m then m[name] else "") + Substitute(s, q, m)
    {
      PlaceholderBounds(s, p, q);
      SubstitutesName(s, p, q, m);
    }
  }

  lemma PlaceholderBounds(s: string, p: nat, q: nat)
    requires IsPlaceholder(s, p, q)
    ensures p + 2 < q <= |s|
  {
  }
}
