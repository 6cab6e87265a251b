/** The deployer's command templates: variables are substituted one after the other with
    str.replace, which is meant to fill the `{name}` holes of a template. */
module TemplateExpansion {
  import opened Sequences

  datatype Binding = Binding(name: string, value: string)

  /** Python's s.replace(pattern, value): leftmost, non-overlapping occurrences. */
  function Replace(s: string, pattern: string, value: string): string
    requires pattern != ""
  {
    if |s| < |pattern| then s
    else if s[..|pattern|] == pattern then value + Replace(s[|pattern|..], pattern, value)
    else [s[0]] + Replace(s[1..], pattern, value)
  }

  function Slot(name: string): string { "{" + name + "}" }

  function ReplaceAll(s: string, bindings: seq<Binding>): string
    decreases |bindings|
  {
    if bindings == [] then s
    else ReplaceAll(Replace(s, Slot(bindings[0].name), bindings[0].value), bindings[1..])
  }

  function Bindings(vars: seq<Binding>, tag: string, image: string): seq<Binding> {
    [Binding("tag", tag), Binding("image", image)] + vars
  }

  method Expand(cmd: string, vars: seq<Binding>, tag: string, image: string) returns (out: string)
    ensures out == if cmd == "" then "" else ReplaceAll(cmd, Bindings(vars, tag, image))
  {
    if cmd == "" {
      return cmd;
    }
    out := Replace(cmd, Slot("tag"), tag);
    out := Replace(out, Slot("image"), image);
    ghost var all := Bindings(vars, tag, image);
    assert all[1..] == [Binding("image", image)] + vars && all[1..][1..] == vars;
    for i := 0 to |vars|
      invariant ReplaceAll(cmd, all) == ReplaceAll(out, vars[i..])
    {
      assert vars[i..][1..] == vars[i + 1..];
      out := Replace(out, Slot(vars[i].name), vars[i].value);
    }
  }

  // ------------------------------------------------------------------ what a template means

  datatype Piece = Lit(text: string) | Hole(name: string)

  predicate BraceFree(s: string) { '{' !in s && '}' !in s }

  predicate Flat(pieces: seq<Piece>) {
    forall p :: p in pieces ==> BraceFree(if p.Lit? then p.text else p.name)
  }

  function Text(p: Piece): string {
    match p case Lit(text) => text case Hole(name) => Slot(name)
  }

  function Render(pieces: seq<Piece>): string {
    if pieces == [] then "" else Text(pieces[0]) + Render(pieces[1..])
  }

  function Lookup(name: string, bindings: seq<Binding>): Piece {
    if bindings == [] then Hole(name)
    else if bindings[0].name == name then Lit(bindings[0].value)
    else Lookup(name, bindings[1..])
  }

  /** Simultaneous substitution: every hole takes its binding's value, at once. */
  function Substitute(pieces: seq<Piece>, bindings: seq<Binding>): seq<Piece> {
    seq(|pieces|, i requires 0 <= i < |pieces| =>
      if pieces[i].Hole? then Lookup(pieces[i].name, bindings) else pieces[i])
  }

  lemma {:induction false} ReplaceSkips(text: string, rest: string, name: string, value: string)
    requires '{' !in text
    ensures Replace(text + rest, Slot(name), value) == text + Replace(rest, Slot(name), value)
  {
    if text == "" {
      assert text + rest == rest;
    } else {
      var s := text + rest;
      assert s[0] == text[0] != '{' == Slot(name)[0];
      assert s[1..] == text[1..] + rest;
      ReplaceSkips(text[1..], rest, name, value);
      if |s| < |Slot(name)| {
        assert |text[1..] + rest| < |Slot(name)|;
      } else {
        assert s[..|Slot(name)|][0] != Slot(name)[0];
      }
    }
  }

  /** A slot stands at the front of `{other}...` only when the two names agree. */
  lemma SlotReads(name: string, s: string)
    requires BraceFree(name) && |name| + 2 <= |s| && s[..|name| + 2] == Slot(name)
    ensures s[|name| + 1] == '}' && (forall i :: 1 <= i <= |name| ==> s[i] != '}') && s[1..|name| + 1] == name
  {
    forall i | 0 <= i < |name| ensures s[i + 1] == name[i] && name[i] != '}' {
      assert s[..|name| + 2][i + 1] == Slot(name)[i + 1];
    }
    assert s[..|name| + 2][|name| + 1] == Slot(name)[|name| + 1];
  }

  lemma SlotPrefix(name: string, other: string, rest: string)
    requires BraceFree(name) && BraceFree(other)
    ensures |Slot(name)| <= |Slot(other) + rest| && (Slot(other) + rest)[..|Slot(name)|] == Slot(name)
            <==> name == other
  {
    var s := Slot(other) + rest;
    if |Slot(name)| <= |s| && s[..|Slot(name)|] == Slot(name) {
      SlotReads(name, s);
      assert s[..|Slot(other)|] == Slot(other);
      SlotReads(other, s);
      assert |name| == |other|;
    }
  }

  lemma Braced(name: string, tail: string)
    ensures ['{'] + ((name + "}") + tail) == Slot(name) + tail
  {}

  lemma ReplaceAtSlot(other: string, rest: string, name: string, value: string)
    requires BraceFree(name) && BraceFree(other)
    ensures Replace(Slot(other) + rest, Slot(name), value)
         == (if name == other then value else Slot(other)) + Replace(rest, Slot(name), value)
  {
    var s := Slot(other) + rest;
    SlotPrefix(name, other, rest);
    if name == other {
      assert s[|Slot(name)|..] == rest;
    } else {
      assert s[0] == '{' && s[1..] == (other + "}") + rest;
      ReplaceSkips(other + "}", rest, name, value);
      var tail := Replace(rest, Slot(name), value);
      if |s| < |Slot(name)| {
        ReplaceShort(rest, Slot(name), value);
      } else {
        assert Replace(s, Slot(name), value) == [s[0]] + ((other + "}") + tail);
      }
      Braced(other, tail);
    }
  }

  lemma ReplaceShort(s: string, pattern: string, value: string)
    requires pattern != "" && |s| < |pattern|
    ensures Replace(s, pattern, value) == s
  {}

  function FillOne(p: Piece, b: Binding): Piece { if p == Hole(b.name) then Lit(b.value) else p }

  function Fill(pieces: seq<Piece>, b: Binding): seq<Piece> {
    seq(|pieces|, i requires 0 <= i < |pieces| => FillOne(pieces[i], b))
  }

  lemma ReplacePiece(p: Piece, rest: string, b: Binding)
    requires BraceFree(if p.Lit? then p.text else p.name) && BraceFree(b.name)
    ensures Replace(Text(p) + rest, Slot(b.name), b.value) == Text(FillOne(p, b)) + Replace(rest, Slot(b.name), b.value)
  {
    hide Replace;
    if p.Lit? {
      ReplaceSkips(p.text, rest, b.name, b.value);
    } else {
      ReplaceAtSlot(p.name, rest, b.name, b.value);
    }
  }

  /** One replacement fills exactly the holes of that name. */
  lemma {:induction false} ReplaceFills(pieces: seq<Piece>, b: Binding)
    requires Flat(pieces) && BraceFree(b.name)
    ensures Replace(Render(pieces), Slot(b.name), b.value) == Render(Fill(pieces, b))
  {
    hide Replace, Text, FillOne, BraceFree;
    if pieces == [] {
      ReplaceShort("", Slot(b.name), b.value);
    } else {
      var p, rest := pieces[0], pieces[1..];
      ReplaceFills(rest, b);
      assert Fill(pieces, b)[1..] == Fill(rest, b);
      ReplacePiece(p, Render(rest), b);
    }
  }

  /** On templates made of brace-free literals and holes, with brace-free names and values,
      replacing one variable after the other is simultaneous substitution. */
  lemma {:induction false} ExpandIsSubstitution(pieces: seq<Piece>, bindings: seq<Binding>)
    requires Flat(pieces)
    requires forall b :: b in bindings ==> BraceFree(b.name) && BraceFree(b.value)
    ensures ReplaceAll(Render(pieces), bindings) == Render(Substitute(pieces, bindings))
    decreases |bindings|
  {
    if bindings == [] {
      assert Substitute(pieces, bindings) == pieces;
    } else {
      var b := bindings[0];
      assert b in bindings;
      ReplaceFills(pieces, b);
      assert Flat(Fill(pieces, b));
      ExpandIsSubstitution(Fill(pieces, b), bindings[1..]);
      assert Substitute(Fill(pieces, b), bindings[1..]) == Substitute(pieces, bindings);
    }
  }

  predicate DistinctNames(bindings: seq<Binding>) {
    forall i, j :: 0 <= i < j < |bindings| ==> bindings[i].name != bindings[j].name
  }

  lemma {:induction false} LookupBinding(name: string, bindings: seq<Binding>)
    requires DistinctNames(bindings)
    ensures forall b :: b in bindings && b.name == name ==> Lookup(name, bindings) == Lit(b.value)
    ensures (forall b :: b in bindings ==> b.name != name) ==> Lookup(name, bindings) == Hole(name)
  {
    if bindings != [] {
      LookupBinding(name, bindings[1..]);
      assert bindings[0] in bindings;
    }
  }

  /** The tag and the image come first and win over variables of the same name. */
  lemma LookupAll(name: string, vars: seq<Binding>, tag: string, image: string)
    ensures Lookup(name, Bindings(vars, tag, image)) ==
            if name == "tag" then Lit(tag) else if name == "image" then Lit(image) else Lookup(name, vars)
  {
    var all := Bindings(vars, tag, image);
    assert all[0] == Binding("tag", tag) && all[1..][0] == Binding("image", image) && all[1..][1..] == vars;
  }

  /** So on such templates the order of the variables cannot matter, whether or not one of them is itself called
      tag or image. */
  lemma ExpandOrderIrrelevant(pieces: seq<Piece>, vars: seq<Binding>, reordered: seq<Binding>, tag: string,
                              image: string)
    requires Flat(pieces) && DistinctNames(vars) && DistinctNames(reordered)
    requires forall b :: b in vars <==> b in reordered
    requires forall b :: b in vars ==> BraceFree(b.name) && BraceFree(b.value)
    requires BraceFree(tag) && BraceFree(image)
    ensures ReplaceAll(Render(pieces), Bindings(vars, tag, image))
            == ReplaceAll(Render(pieces), Bindings(reordered, tag, image))
  {
    hide Lookup, Render, ReplaceAll;
    ExpandIsSubstitution(pieces, Bindings(vars, tag, image));
    ExpandIsSubstitution(pieces, Bindings(reordered, tag, image));
    forall i | 0 <= i < |pieces| && pieces[i].Hole?
      ensures Lookup(pieces[i].name, Bindings(vars, tag, image))
              == Lookup(pieces[i].name, Bindings(reordered, tag, image))
    {
      SameLookup(pieces[i].name, vars, reordered);
      LookupAll(pieces[i].name, vars, tag, image);
      LookupAll(pieces[i].name, reordered, tag, image);
    }
    assert Substitute(pieces, Bindings(vars, tag, image)) == Substitute(pieces, Bindings(reordered, tag, image));
  }

  lemma SameLookup(name: string, vars: seq<Binding>, reordered: seq<Binding>)
    requires DistinctNames(vars) && DistinctNames(reordered)
    requires forall b :: b in vars <==> b in reordered
    ensures Lookup(name, vars) == Lookup(name, reordered)
  {
    LookupBinding(name, vars);
    LookupBinding(name, reordered);
  }

  // ------------------------------------------------------------------ nested templates

  lemma {:induction false} ReplaceAbsent(s: string, pattern: string, value: string)
    requires pattern != "" && forall i :: 0 <= i <= |s| - |pattern| ==> s[i..][..|pattern|] != pattern
    ensures Replace(s, pattern, value) == s
  {
    if |s| >= |pattern| {
      assert s[0..] == s;
      forall i | 0 <= i <= |s[1..]| - |pattern| ensures s[1..][i..][..|pattern|] != pattern {
        assert s[1..][i..] == s[i + 1..];
      }
      ReplaceAbsent(s[1..], pattern, value);
      assert [s[0]] + s[1..] == s;
    }
  }

  lemma Misses(name: string, value: string)
    requires name == "tag" || name == "image" || name == "a1"
    ensures Replace("{a{b}}", Slot(name), value) == "{a{b}}"
  {
    var s, slot := "{a{b}}", Slot(name);
    forall i | 0 <= i <= |s| - |slot| ensures s[i..][..|slot|] != slot {
      assert slot[0] == '{' && slot[|slot| - 1] == '}' && s[i..][..|slot|][0] == s[i];
      assert s[i..][..|slot|][|slot| - 1] == s[i + |slot| - 1];
      assert slot[2] != '{' && s[i..][..|slot|][2] == s[i + 2];
    }
    ReplaceAbsent(s, slot, value);
  }

  lemma FillsInner()
    ensures Replace("{a{b}}", Slot("b"), "1") == "{a1}"
  {
    var s := "{a{b}}";
    assert s[..3] != Slot("b") by { assert s[1] != Slot("b")[1]; }
    assert s[1..] == "a" + (Slot("b") + "}");
    ReplaceSkips("a", Slot("b") + "}", "b", "1");
    ReplaceAtSlot("b", "}", "b", "1");
    ReplaceShort("}", Slot("b"), "1");
    assert Replace(s, Slot("b"), "1") == [s[0]] + ("a" + ("1" + "}"));
  }

  lemma FillsBuilt()
    ensures Replace("{a1}", Slot("a1"), "X") == "X"
  {
    ReplaceAtSlot("a1", "", "a1", "X");
    assert Slot("a1") + "" == "{a1}";
  }

  lemma ReplaceInOrder(s: string, b: Binding, c: Binding, tag: string, image: string)
    ensures ReplaceAll(s, Bindings([b, c], tag, image)) ==
            Replace(Replace(Replace(Replace(s, Slot("tag"), tag), Slot("image"), image), Slot(b.name), b.value),
                Slot(c.name), c.value)
  {
    hide Replace;
    var all := Bindings([b, c], tag, image);
    var t := Replace(Replace(s, Slot("tag"), tag), Slot("image"), image);
    assert all[1..] == [Binding("image", image), b, c] && all[1..][1..] == [b, c];
    assert ReplaceAll(s, all) == ReplaceAll(t, [b, c]);
    assert [b, c][1..] == [c] && [c][1..] == [];
    var u := Replace(t, Slot(b.name), b.value);
    assert ReplaceAll(u, [c]) == ReplaceAll(Replace(u, Slot(c.name), c.value), []);
  }

  /** Without the brace-free pieces both results fail: in a nested template the inner value builds a new hole,
      which is filled or not depending on the order of the two variables, whatever the tag and the image. */
  lemma NestedTemplateDependsOnOrder(tag: string, image: string)
    ensures var b, a1 := Binding("b", "1"), Binding("a1", "X");
            && ReplaceAll("{a{b}}", Bindings([b, a1], tag, image)) == "X"
            && ReplaceAll("{a{b}}", Bindings([a1, b], tag, image)) == "{a1}"
  {
    var b, a1 := Binding("b", "1"), Binding("a1", "X");
    Misses("tag", tag);
    Misses("image", image);
    Misses("a1", "X");
    FillsInner();
    FillsBuilt();
    hide Replace;
    ReplaceInOrder("{a{b}}", b, a1, tag, image);
    ReplaceInOrder("{a{b}}", a1, b, tag, image);
  }
}
