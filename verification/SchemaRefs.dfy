/**
 `rewrite_refs`: every string under the key "$ref" that starts with one prefix gets another instead, all
 over a JSON document. `SchemaTree` does this in place; here is what it does to the value, and what the
 references then mean.
 */
module SchemaRefs {
  import opened Wrappers
  import opened ApiIds

  datatype Json = Scalar(literal: string) | Text(text: string) | Array(entries: seq<Json>) | Object(members: seq<Member>)

  datatype Member = Member(key: string, value: Json)

  const REF := "$ref"
  const DEFINITIONS_PREFIX := "#/definitions/"
  const COMPONENTS_PREFIX := "#/components/schemas/"

  /** A member that is a reference, which is not looked into. */
  predicate IsRef(m: Member) {
    m.key == REF && m.value.Text?
  }

  function RewriteText(r: string, from: string, to: string): string {
    if from <= r then to + r[|from|..] else r
  }

  function Rewrite(v: Json, from: string, to: string): Json
    decreases v, 0
  {
    match v
    case Object(members) =>
      Object(seq(|members|, i requires 0 <= i < |members| => RewriteMember(members[i], from, to)))
    case Array(entries) =>
      Array(seq(|entries|, i requires 0 <= i < |entries| => Rewrite(entries[i], from, to)))
    case _ => v
  }

  function RewriteMember(m: Member, from: string, to: string): Member
    decreases m.value, 1
  {
    Member(m.key, if IsRef(m) then Text(RewriteText(m.value.text, from, to)) else Rewrite(m.value, from, to))
  }

  /** The values inside a value. An entry of an array has the empty key, which is no reference's. */
  function Parts(v: Json): (parts: seq<Member>)
    ensures forall i :: 0 <= i < |parts| ==> parts[i].value < v
  {
    match v
    case Object(members) => members
    case Array(entries) => seq(|entries|, i requires 0 <= i < |entries| => Member("", entries[i]))
    case _ => []
  }

  lemma PartsRewritten(v: Json, from: string, to: string)
    ensures |Parts(Rewrite(v, from, to))| == |Parts(v)|
    ensures forall i :: 0 <= i < |Parts(v)| ==> Parts(Rewrite(v, from, to))[i] == RewriteMember(Parts(v)[i], from, to)
  {
  }

  /** Values of the same sort are the same if the values inside them are. */
  lemma SameByParts(v: Json, w: Json)
    requires (v.Object? <==> w.Object?) && (v.Array? <==> w.Array?) && (!v.Object? && !v.Array? ==> v == w)
    requires |Parts(v)| == |Parts(w)|
    ensures v == w <==> forall i :: 0 <= i < |Parts(v)| ==> Parts(v)[i] == Parts(w)[i]
  {
    if forall i :: 0 <= i < |Parts(v)| ==> Parts(v)[i] == Parts(w)[i] {
      if v.Array? {
        assert forall i :: 0 <= i < |v.entries| ==> v.entries[i] == Parts(v)[i].value == Parts(w)[i].value == w.entries[i];
      }
    }
  }

  // ---------- the references of a document ----------

  ghost predicate HasRef(v: Json, r: string)
    decreases v, 0
  {
    exists i :: 0 <= i < |Parts(v)| && MemberHasRef(Parts(v)[i], r)
  }

  ghost predicate MemberHasRef(m: Member, r: string)
    decreases m.value, 1
  {
    if IsRef(m) then m.value.text == r else HasRef(m.value, r)
  }

  /** No reference has this prefix. */
  ghost predicate NoneUnder(v: Json, prefix: string) {
    forall r :: HasRef(v, r) ==> !(prefix <= r)
  }

  ghost predicate MemberNoneUnder(m: Member, prefix: string) {
    forall r :: MemberHasRef(m, r) ==> !(prefix <= r)
  }

  lemma NoneUnderByParts(v: Json, prefix: string)
    ensures NoneUnder(v, prefix) <==> forall i :: 0 <= i < |Parts(v)| ==> MemberNoneUnder(Parts(v)[i], prefix)
  {
    if NoneUnder(v, prefix) {
      forall i | 0 <= i < |Parts(v)| ensures MemberNoneUnder(Parts(v)[i], prefix) {
        forall r | MemberHasRef(Parts(v)[i], r) ensures !(prefix <= r) {
          assert HasRef(v, r);
        }
      }
    } else {
      var r :| HasRef(v, r) && prefix <= r;
      var i :| 0 <= i < |Parts(v)| && MemberHasRef(Parts(v)[i], r);
      assert !MemberNoneUnder(Parts(v)[i], prefix);
    }
  }

  lemma MemberNoneUnderMeans(m: Member, prefix: string)
    ensures MemberNoneUnder(m, prefix) <==> if IsRef(m) then !(prefix <= m.value.text) else NoneUnder(m.value, prefix)
  {
    if IsRef(m) {
      assert MemberHasRef(m, m.value.text);
    } else {
      assert forall r :: MemberHasRef(m, r) <==> HasRef(m.value, r);
    }
  }

  lemma RefsStayRefs(m: Member, from: string, to: string)
    ensures IsRef(RewriteMember(m, from, to)) <==> IsRef(m)
    ensures IsRef(m) ==> m.value.Text? && RewriteMember(m, from, to).value == Text(RewriteText(m.value.text, from, to))
    ensures !IsRef(m) ==> RewriteMember(m, from, to).value == Rewrite(m.value, from, to)
  {
  }

  /** The references afterwards are the rewritten references from before. */
  lemma {:induction false} RefsRewritten(v: Json, r: string, from: string, to: string)
    ensures HasRef(Rewrite(v, from, to), r) <==> exists q :: HasRef(v, q) && RewriteText(q, from, to) == r
    decreases v
  {
    var parts, parts' := Parts(v), Parts(Rewrite(v, from, to));
    PartsRewritten(v, from, to);
    hide Rewrite, RewriteMember, RewriteText, Parts, IsRef;
    forall i | 0 <= i < |parts|
      ensures MemberHasRef(parts'[i], r) <==> exists q :: MemberHasRef(parts[i], q) && RewriteText(q, from, to) == r
    {
      var m := parts[i];
      RefsStayRefs(m, from, to);
      if IsRef(m) {
        assert MemberHasRef(m, m.value.text);
      } else {
        RefsRewritten(m.value, r, from, to);
        assert forall q :: MemberHasRef(m, q) <==> HasRef(m.value, q);
      }
    }
    if HasRef(Rewrite(v, from, to), r) {
      var i :| 0 <= i < |parts'| && MemberHasRef(parts'[i], r);
      var q :| MemberHasRef(parts[i], q) && RewriteText(q, from, to) == r;
      assert HasRef(v, q);
    }
    if q :| HasRef(v, q) && RewriteText(q, from, to) == r {
      var i :| 0 <= i < |parts| && MemberHasRef(parts[i], q);
      assert MemberHasRef(parts'[i], r);
    }
  }

  lemma TextUntouched(r: string, from: string, to: string)
    requires from != to
    ensures RewriteText(r, from, to) == r <==> !(from <= r)
  {
    if from <= r {
      var rest := r[|from|..];
      assert r == from + rest;
      if |from| == |to| {
        assert (from + rest)[..|from|] == from && (to + rest)[..|to|] == to;
      }
    }
  }

  /** A document is left as it is exactly when none of its references has the old prefix. */
  lemma {:induction false} UntouchedExactlyWhen(v: Json, from: string, to: string)
    requires from != to
    ensures Rewrite(v, from, to) == v <==> NoneUnder(v, from)
    decreases v
  {
    var w := Rewrite(v, from, to);
    PartsRewritten(v, from, to);
    SameByParts(w, v);
    NoneUnderByParts(v, from);
    forall i | 0 <= i < |Parts(v)| ensures Parts(w)[i] == Parts(v)[i] <==> MemberNoneUnder(Parts(v)[i], from) {
      var m := Parts(v)[i];
      MemberNoneUnderMeans(m, from);
      if IsRef(m) {
        TextUntouched(m.value.text, from, to);
      } else {
        UntouchedExactlyWhen(m.value, from, to);
      }
    }
  }

  // ---------- twice, and back ----------

  predicate Comparable(a: string, b: string) {
    a <= b || b <= a
  }

  lemma NoCommonExtension(a: string, b: string, s: string)
    requires a <= s && b <= s
    ensures Comparable(a, b)
  {
    if |a| <= |b| {
      assert a == b[..|a|];
    } else {
      assert b == a[..|b|];
    }
  }

  lemma RewriteTwice(v: Json, from: string, to: string)
    requires !Comparable(from, to)
    ensures Rewrite(Rewrite(v, from, to), from, to) == Rewrite(v, from, to)
  {
    var once := Rewrite(v, from, to);
    forall r | HasRef(once, r) ensures !(from <= r) {
      RefsRewritten(v, r, from, to);
      var q :| HasRef(v, q) && RewriteText(q, from, to) == r;
      if from <= q && from <= r {
        NoCommonExtension(from, to, r);
      }
    }
    UntouchedExactlyWhen(once, from, to);
  }

  lemma {:induction false} SamePrefixKeeps(v: Json, prefix: string)
    ensures Rewrite(v, prefix, prefix) == v
    decreases v
  {
    var w := Rewrite(v, prefix, prefix);
    PartsRewritten(v, prefix, prefix);
    SameByParts(w, v);
    forall i | 0 <= i < |Parts(v)| ensures Parts(w)[i] == Parts(v)[i] {
      var m := Parts(v)[i];
      if IsRef(m) {
        assert RewriteText(m.value.text, prefix, prefix) == m.value.text;
      } else {
        SamePrefixKeeps(m.value, prefix);
      }
    }
  }

  function OneRef(r: string): Json {
    Object([Member(REF, Text(r))])
  }

  lemma OneRefRewritten(r: string, from: string, to: string)
    ensures Rewrite(OneRef(r), from, to) == OneRef(RewriteText(r, from, to))
  {
    PartsRewritten(OneRef(r), from, to);
    SameByParts(Rewrite(OneRef(r), from, to), OneRef(RewriteText(r, from, to)));
  }

  lemma RewriteTwiceDiffers(from: string, to: string)
    requires from != to && Comparable(from, to)
    ensures exists v :: Rewrite(Rewrite(v, from, to), from, to) != Rewrite(v, from, to)
  {
    var rest := if from <= to then "" else from[|to|..];
    var r, once := from + rest, to + rest;
    assert from <= r && r[|from|..] == rest && from <= once;
    OneRefRewritten(r, from, to);
    OneRefRewritten(once, from, to);
    TextUntouched(once, from, to);
    assert OneRef(RewriteText(once, from, to)).members[0] != OneRef(once).members[0];
    assert Rewrite(Rewrite(OneRef(r), from, to), from, to) != Rewrite(OneRef(r), from, to);
  }

  /** A second rewrite changes nothing, for every document, exactly when neither prefix starts the other or they are the same. */
  lemma IdempotentExactlyWhen(from: string, to: string)
    ensures (forall v :: Rewrite(Rewrite(v, from, to), from, to) == Rewrite(v, from, to)) <==> from == to || !Comparable(from, to)
  {
    if from == to {
      forall v ensures Rewrite(v, from, to) == v {
        SamePrefixKeeps(v, from);
      }
    } else if Comparable(from, to) {
      RewriteTwiceDiffers(from, to);
    } else {
      forall v ensures Rewrite(Rewrite(v, from, to), from, to) == Rewrite(v, from, to) {
        RewriteTwice(v, from, to);
      }
    }
  }

  lemma TextBack(r: string, from: string, to: string)
    requires !Comparable(from, to)
    ensures RewriteText(RewriteText(r, from, to), to, from) == r <==> !(to <= r)
  {
    if from <= r {
      assert (to + r[|from|..])[|to|..] == r[|from|..];
      assert from + r[|from|..] == r;
      if to <= r { NoCommonExtension(from, to, r); }
    } else if to <= r {
      assert from <= RewriteText(r, to, from);
    }
  }

  /** Rewriting back restores a document exactly when none of its references had the new prefix already. */
  lemma {:induction false} RewriteBackExactlyWhen(v: Json, from: string, to: string)
    requires !Comparable(from, to)
    ensures Rewrite(Rewrite(v, from, to), to, from) == v <==> NoneUnder(v, to)
    decreases v
  {
    var there := Rewrite(v, from, to);
    var back := Rewrite(there, to, from);
    PartsRewritten(v, from, to);
    PartsRewritten(there, to, from);
    SameByParts(back, v);
    NoneUnderByParts(v, to);
    forall i | 0 <= i < |Parts(v)| ensures Parts(back)[i] == Parts(v)[i] <==> MemberNoneUnder(Parts(v)[i], to) {
      var m := Parts(v)[i];
      MemberNoneUnderMeans(m, to);
      if IsRef(m) {
        TextBack(m.value.text, from, to);
      } else {
        RewriteBackExactlyWhen(m.value, from, to);
        assert !IsRef(Parts(there)[i]);
      }
    }
  }

  lemma SourcePrefixes()
    ensures !Comparable(DEFINITIONS_PREFIX, COMPONENTS_PREFIX)
  {
    assert DEFINITIONS_PREFIX[2] != COMPONENTS_PREFIX[2];
  }

  // ---------- what a reference means ----------

  /** The index of the value a token of a pointer names, or the number of values if there is none. */
  function ChildFrom(v: Json, token: string, i: nat): (k: nat)
    requires i <= |Parts(v)|
    ensures i <= k <= |Parts(v)|
    ensures k < |Parts(v)| && v.Object? ==> v.members[k].key == token
    decreases |Parts(v)| - i
  {
    if i == |Parts(v)| || (v.Object? && v.members[i].key == token) || (v.Array? && Decimal(i) == token) then i
    else ChildFrom(v, token, i + 1)
  }

  /** The value at a path (section 4 of RFC 6901). */
  function Resolve(v: Json, path: seq<string>): Option<Json> {
    if path == [] then Some(v)
    else
      var k := ChildFrom(v, path[0], 0);
      if k == |Parts(v)| then None else Resolve(Parts(v)[k].value, path[1..])
  }

  /** The path ends at a reference, not at something one would refer to. */
  predicate EndsAtRef(v: Json, path: seq<string>) {
    path != [] &&
      var k := ChildFrom(v, path[0], 0);
      k < |Parts(v)| && if |path| == 1 then IsRef(Parts(v)[k]) else EndsAtRef(Parts(v)[k].value, path[1..])
  }

  lemma {:induction false} ChildRewritten(v: Json, token: string, i: nat, from: string, to: string)
    requires i <= |Parts(v)| == |Parts(Rewrite(v, from, to))|
    ensures ChildFrom(Rewrite(v, from, to), token, i) == ChildFrom(v, token, i)
    decreases |Parts(v)| - i
  {
    PartsRewritten(v, from, to);
    if i < |Parts(v)| {
      assert Parts(Rewrite(v, from, to))[i].key == Parts(v)[i].key;
      ChildRewritten(v, token, i + 1, from, to);
    }
  }

  /**
   Every path of a document leads to the rewritten form of what it led to, and nowhere if it led nowhere.
   A path that ends at a reference leads to the reference with its new prefix.
   */
  lemma {:induction false} ResolveRewritten(v: Json, path: seq<string>, from: string, to: string)
    ensures Resolve(Rewrite(v, from, to), path).Some? <==> Resolve(v, path).Some?
    ensures EndsAtRef(v, path) ==>
              && Resolve(v, path).Some? && Resolve(v, path).value.Text?
              && var r := Resolve(v, path).value.text;
                 Resolve(Rewrite(v, from, to), path) == Some(Text(if from <= r then to + r[|from|..] else r))
    ensures !EndsAtRef(v, path) && Resolve(v, path).Some? ==>
              Resolve(Rewrite(v, from, to), path) == Some(Rewrite(Resolve(v, path).value, from, to))
    decreases |path|
  {
    if path != [] {
      PartsRewritten(v, from, to);
      ChildRewritten(v, path[0], 0, from, to);
      var k := ChildFrom(v, path[0], 0);
      if k < |Parts(v)| {
        var m := Parts(v)[k];
        if IsRef(m) {
          assert Parts(m.value) == [];
          assert |path| > 1 ==> Resolve(m.value, path[1..]).None? && !EndsAtRef(m.value, path[1..]);
          assert |path| == 1 ==> path[1..] == [];
        } else {
          ResolveRewritten(m.value, path[1..], from, to);
          assert |path| == 1 ==> path[1..] == [];
        }
      }
    }
  }

  lemma {:induction false} ResolveAppend(v: Json, p: seq<string>, q: seq<string>)
    requires q != []
    ensures Resolve(v, p + q) == if Resolve(v, p).Some? then Resolve(Resolve(v, p).value, q) else None
    ensures EndsAtRef(v, p + q) <==> Resolve(v, p).Some? && EndsAtRef(Resolve(v, p).value, q)
  {
    if p == [] {
      assert p + q == q;
    } else {
      assert (p + q)[1..] == p[1..] + q && (p + q)[0] == p[0];
      var k := ChildFrom(v, p[0], 0);
      if k < |Parts(v)| {
        ResolveAppend(Parts(v)[k].value, p[1..], q);
      }
    }
  }

  /** A path ends at a reference exactly when it ends at the text under "$ref" of an object. */
  lemma EndsAtRefMeans(v: Json, path: seq<string>, token: string)
    ensures EndsAtRef(v, path + [token]) <==>
            && token == "$ref" && Resolve(v, path).Some? && Resolve(v, path).value.Object?
            && Resolve(v, path + [token]).Some? && Resolve(v, path + [token]).value.Text?
  {
    ResolveAppend(v, path, [token]);
    assert [token][1..] == [];
  }

  /** One more character in front of pieces: a slash starts a new one. */
  function Prepend(c: char, pieces: seq<string>): (r: seq<string>)
    requires pieces != []
    ensures r != []
  {
    if c == '/' then [""] + pieces else [[c] + pieces[0]] + pieces[1..]
  }

  /** The pieces between the slashes. */
  function Split(s: string): (pieces: seq<string>)
    ensures pieces != []
  {
    if s == "" then [""] else Prepend(s[0], Split(s[1..]))
  }

  /** `~1` is a slash and `~0` a tilde. */
  function Unescape(token: string): string {
    if |token| >= 2 && token[0] == '~' && token[1] == '1' then ['/'] + Unescape(token[2..])
    else if |token| >= 2 && token[0] == '~' && token[1] == '0' then ['~'] + Unescape(token[2..])
    else if token == "" then "" else [token[0]] + Unescape(token[1..])
  }

  function Tokens(s: string): (tokens: seq<string>)
    ensures tokens != []
  {
    var pieces := Split(s);
    seq(|pieces|, i requires 0 <= i < |pieces| => Unescape(pieces[i]))
  }

  lemma PrependAppend(c: char, x: seq<string>, y: seq<string>)
    requires x != []
    ensures Prepend(c, x + y) == Prepend(c, x) + y
  {
    assert (x + y)[1..] == x[1..] + y;
  }

  lemma {:induction false} SplitAt(a: string, b: string)
    ensures Split(a + "/" + b) == Split(a) + Split(b)
  {
    var s := a + "/" + b;
    if a == "" {
      assert s == ['/'] + b && s[1..] == b;
    } else {
      assert s[1..] == a[1..] + "/" + b && s[0] == a[0];
      SplitAt(a[1..], b);
      PrependAppend(a[0], Split(a[1..]), Split(b));
    }
  }

  lemma {:induction false} SplitOne(a: string)
    requires '/' !in a
    ensures Split(a) == [a]
  {
    if a != "" {
      SplitOne(a[1..]);
      assert a == [a[0]] + a[1..];
    }
  }

  lemma {:induction false} UnescapePlain(s: string)
    requires '~' !in s
    ensures Unescape(s) == s
  {
    if s != "" {
      UnescapePlain(s[1..]);
      assert s == [s[0]] + s[1..];
    }
  }

  lemma TokensAt(name: string, rest: string)
    requires '/' !in name && '~' !in name
    ensures Tokens(name + "/" + rest) == [name] + Tokens(rest)
  {
    SplitAt(name, rest);
    SplitOne(name);
    UnescapePlain(name);
  }

  const POINTED := Object([Member("foo", Array([Text("bar"), Text("baz")])), Member("a/b", Text("1")), Member("m~n", Text("8"))])

  /** Examples of sections 4 and 5 of RFC 6901. */
  lemma EscapeExamples()
    ensures Unescape("~01") == "~1" && Unescape("a~1b") == "a/b" && Unescape("m~0n") == "m~n"
  {
    assert "~01"[2..] == "1" && Unescape("1") == "1";
    assert "a~1b"[1..] == "~1b" && "~1b"[2..] == "b" && Unescape("b") == "b";
    assert "m~0n"[1..] == "~0n" && "~0n"[2..] == "n" && Unescape("n") == "n";
  }

  lemma PointerExamples()
    ensures Resolve(POINTED, ["foo", "0"]) == Some(Text("bar"))
    ensures Resolve(POINTED, ["a/b"]) == Some(Text("1")) && Resolve(POINTED, ["m~n"]) == Some(Text("8"))
  {
    hide Unescape;
    assert ["foo", "0"][1..] == ["0"] && ["0"][1..] == [];
    assert ["a/b"][1..] == [] && ["m~n"][1..] == [];
    assert ChildFrom(POINTED, "foo", 0) == 0 && ChildFrom(POINTED, "a/b", 1) == 1 && ChildFrom(POINTED, "m~n", 2) == 2;
    assert ChildFrom(POINTED, "m~n", 1) == 2;
    assert Decimal(0) == "0";
  }

  /** What a reference within a document stands for. */
  function Follow(doc: Json, reference: string): Option<Json> {
    if reference == "#" then Some(doc)
    else if "#/" <= reference then Resolve(doc, Tokens(reference[2..]))
    else None
  }

  lemma FollowDefinition(doc: Json, rest: string)
    ensures Follow(doc, DEFINITIONS_PREFIX + rest) == Resolve(doc, ["definitions"] + Tokens(rest))
  {
    hide Resolve, Tokens;
    TokensAt("definitions", rest);
    assert (DEFINITIONS_PREFIX + rest)[2..] == "definitions" + "/" + rest;
  }

  lemma FollowComponent(doc: Json, rest: string)
    ensures Follow(doc, COMPONENTS_PREFIX + rest) == Resolve(doc, ["components", "schemas"] + Tokens(rest))
  {
    hide Resolve, Tokens;
    TokensAt("schemas", rest);
    TokensAt("components", "schemas" + "/" + rest);
    assert (COMPONENTS_PREFIX + rest)[2..] == "components" + "/" + ("schemas" + "/" + rest);
    assert ["components"] + (["schemas"] + Tokens(rest)) == ["components", "schemas"] + Tokens(rest);
  }

  /** The schemas of the bundle are the component schemas of the other document. */
  predicate SharesSchemas(bundle: Json, openrpc: Json) {
    Resolve(bundle, ["definitions"]).Some? && Resolve(bundle, ["definitions"]) == Resolve(openrpc, ["components", "schemas"])
  }

  /**
   What a reference into the definitions of the bundle stood for, its rewritten form stands for in the
   rewritten document, itself rewritten; and it stands for nothing exactly if it did before. Only a
   reference to another reference, not to a schema, comes to stand for something else: its new form.
   */
  lemma ReferencesKeepMeaning(bundle: Json, openrpc: Json, rest: string)
    requires SharesSchemas(bundle, openrpc)
    ensures var reference := "#/definitions/" + rest;
            var schemas := Resolve(bundle, ["definitions"]).value;
            var after := Follow(Rewrite(openrpc, DEFINITIONS_PREFIX, COMPONENTS_PREFIX), "#/components/schemas/" + rest);
            && (after.Some? <==> Follow(bundle, reference).Some?)
            && (after.Some? ==>
                  var before := Follow(bundle, reference).value;
                  (after.value == Rewrite(before, DEFINITIONS_PREFIX, COMPONENTS_PREFIX) <==>
                   !(EndsAtRef(schemas, Tokens(rest)) && before.Text? && DEFINITIONS_PREFIX <= before.text)))
  {
    FollowDefinition(bundle, rest);
    FollowComponent(Rewrite(openrpc, DEFINITIONS_PREFIX, COMPONENTS_PREFIX), rest);
    assert (DEFINITIONS_PREFIX + rest)[|DEFINITIONS_PREFIX|..] == rest;
    ResolveAppend(bundle, ["definitions"], Tokens(rest));
    ResolveAppend(openrpc, ["components", "schemas"], Tokens(rest));
    ResolveRewritten(openrpc, ["components", "schemas"] + Tokens(rest), DEFINITIONS_PREFIX, COMPONENTS_PREFIX);
    var before := Follow(bundle, DEFINITIONS_PREFIX + rest);
    if before.Some? && before.value.Text? {
      SourcePrefixes();
      TextUntouched(before.value.text, DEFINITIONS_PREFIX, COMPONENTS_PREFIX);
    }
  }

  const SELF_SCHEMAS := Object([Member("A", OneRef("#/definitions/A"))])

  lemma SelfReferenceAt(doc: Json, path: seq<string>)
    requires path != [] && Resolve(doc, path) == Some(SELF_SCHEMAS)
    ensures Resolve(doc, path + ["A", "$ref"]) == Some(Text("#/definitions/A"))
  {
    ResolveAppend(doc, path, ["A", "$ref"]);
    var inner := OneRef("#/definitions/A");
    assert ["A", "$ref"][1..] == ["$ref"] && ["$ref"][1..] == [];
    assert ChildFrom(SELF_SCHEMAS, "A", 0) == 0 && ChildFrom(inner, "$ref", 0) == 0;
  }

  const SELF_BUNDLE := Object([Member("definitions", SELF_SCHEMAS)])
  const SELF_OPENRPC := Object([Member("components", Object([Member("schemas", SELF_SCHEMAS)]))])

  lemma SelfShares()
    ensures Resolve(SELF_BUNDLE, ["definitions"]) == Some(SELF_SCHEMAS)
    ensures Resolve(SELF_OPENRPC, ["components", "schemas"]) == Some(SELF_SCHEMAS)
  {
    var inner := Object([Member("schemas", SELF_SCHEMAS)]);
    assert ChildFrom(SELF_BUNDLE, "definitions", 0) == 0 && ["definitions"][1..] == [];
    assert ChildFrom(SELF_OPENRPC, "components", 0) == 0 && ["components", "schemas"][1..] == ["schemas"];
    assert ChildFrom(inner, "schemas", 0) == 0 && ["schemas"][1..] == [];
  }

  lemma SelfReferenceMoves()
    ensures Resolve(Rewrite(SELF_OPENRPC, DEFINITIONS_PREFIX, COMPONENTS_PREFIX), ["components", "schemas"] + ["A", "$ref"])
         == Some(Text("#/components/schemas/A"))
  {
    SelfShares();
    SelfReferenceAt(SELF_OPENRPC, ["components", "schemas"]);
    SelfReferenceEnds();
    ResolveAppend(SELF_OPENRPC, ["components", "schemas"], ["A", "$ref"]);
    ResolveRewritten(SELF_OPENRPC, ["components", "schemas"] + ["A", "$ref"], DEFINITIONS_PREFIX, COMPONENTS_PREFIX);
    assert "#/definitions/A"[|DEFINITIONS_PREFIX|..] == "A";
    assert COMPONENTS_PREFIX + "A" == "#/components/schemas/A";
  }

  /** A schema that refers to itself, and a reference to that reference, which comes to stand for its new form. */
  lemma ReferenceToReferenceMoves()
    ensures SharesSchemas(SELF_BUNDLE, SELF_OPENRPC)
    ensures Follow(SELF_BUNDLE, DEFINITIONS_PREFIX + "A/$ref") == Some(Text("#/definitions/A"))
    ensures Follow(Rewrite(SELF_OPENRPC, DEFINITIONS_PREFIX, COMPONENTS_PREFIX), COMPONENTS_PREFIX + "A/$ref")
         == Some(Text("#/components/schemas/A"))
  {
    hide Rewrite, Resolve, Tokens, Follow;
    SelfShares();
    RefTokens();
    SelfReferenceAt(SELF_BUNDLE, ["definitions"]);
    SelfReferenceMoves();
    FollowDefinition(SELF_BUNDLE, "A/$ref");
    FollowComponent(Rewrite(SELF_OPENRPC, DEFINITIONS_PREFIX, COMPONENTS_PREFIX), "A/$ref");
  }

  lemma RefTokens()
    ensures Tokens("A/$ref") == ["A", "$ref"]
  {
    TokensAt("A", "$ref");
    assert "A" + "/" + "$ref" == "A/$ref";
    SplitOne("$ref");
    UnescapePlain("$ref");
  }

  lemma SelfReferenceEnds()
    ensures EndsAtRef(SELF_SCHEMAS, ["A", "$ref"])
  {
    var inner := OneRef("#/definitions/A");
    assert ["A", "$ref"][1..] == ["$ref"];
    assert ChildFrom(SELF_SCHEMAS, "A", 0) == 0 && ChildFrom(inner, "$ref", 0) == 0;
  }

  /** If every reference of the document is to a definition of the bundle, none dangles once rewritten. */
  lemma NoReferenceDangles(bundle: Json, openrpc: Json, r: string)
    requires SharesSchemas(bundle, openrpc)
    requires forall q :: HasRef(openrpc, q) ==> DEFINITIONS_PREFIX <= q && Follow(bundle, q).Some?
    requires HasRef(Rewrite(openrpc, DEFINITIONS_PREFIX, COMPONENTS_PREFIX), r)
    ensures COMPONENTS_PREFIX <= r && Follow(Rewrite(openrpc, DEFINITIONS_PREFIX, COMPONENTS_PREFIX), r).Some?
  {
    RefsRewritten(openrpc, r, DEFINITIONS_PREFIX, COMPONENTS_PREFIX);
    var q :| HasRef(openrpc, q) && RewriteText(q, DEFINITIONS_PREFIX, COMPONENTS_PREFIX) == r;
    var rest := q[|DEFINITIONS_PREFIX|..];
    assert q == DEFINITIONS_PREFIX + rest;
    ReferencesKeepMeaning(bundle, openrpc, rest);
  }
}
