/** Entity references `[kind:][namespace/]name`: the parser, the printer and when they agree. */
module EntityRefs {
  import opened Prelude

  datatype EntityRef = EntityRef(kind: Option<string>, namespace: string, name: string)

  /** The two Unicode operations the parser uses, by the facts it relies on. */
  datatype Text = Text(lower: string -> string, isSpace: char -> bool)

  ghost predicate IsText(text: Text) {
    && (forall s :: text.lower(text.lower(s)) == text.lower(s))
    && (forall s :: ':' in text.lower(s) <==> ':' in s)
    && (forall s :: text.lower(s) == "" <==> s == "")
    && (forall s :: s != "" && text.lower(s) != "" ==> (text.isSpace(text.lower(s)[0]) <==> text.isSpace(s[0])))
    && !text.isSpace(':') && !text.isSpace('/') && !text.isSpace('d')
  }

  function TrimStart(text: Text, s: string): string {
    if s != "" && text.isSpace(s[0]) then TrimStart(text, s[1..]) else s
  }

  function TrimEnd(text: Text, s: string): string {
    if s != "" && text.isSpace(s[|s| - 1]) then TrimEnd(text, s[..|s| - 1]) else s
  }

  function Trim(text: Text, s: string): string { TrimEnd(text, TrimStart(text, s)) }

  /** Splits at the first occurrence of the separator. */
  function SplitOnce(s: string, sep: char): (parts: Option<(string, string)>)
    ensures parts.None? <==> sep !in s
    ensures parts.Some? ==> s == parts.value.0 + [sep] + parts.value.1 && sep !in parts.value.0
  {
    if s == "" then None
    else if s[0] == sep then
      assert s == [] + [sep] + s[1..];
      Some(("", s[1..]))
    else
      var rest := SplitOnce(s[1..], sep);
      if rest.None? then None
      else
        assert s == [s[0]] + s[1..];
        Some(([s[0]] + rest.value.0, rest.value.1))
  }

  function ParsePath(kind: Option<string>, rest: string): Option<EntityRef> {
    var r := match SplitOnce(rest, '/')
      case Some((ns, nm)) => EntityRef(kind, ns, nm)
      case None => EntityRef(kind, "default", rest);
    if r.name == "" then None else Some(r)
  }

  function ParseTrimmed(text: Text, s: string): Option<EntityRef> {
    match SplitOnce(s, ':')
    case Some((k, r)) => if k != "" then ParsePath(Some(text.lower(k)), r) else ParsePath(None, s)
    case None => ParsePath(None, s)
  }

  /** `None` is the parser's error: the reference has no name. */
  function Parse(text: Text, s: string): Option<EntityRef> { ParseTrimmed(text, Trim(text, s)) }

  function Canonical(r: EntityRef): string {
    if r.kind.Some? then r.kind.value + ":" + (r.namespace + "/" + r.name) else r.namespace + "/" + r.name
  }

  /** The reference an entity prints for itself. */
  function EntityRefOf(text: Text, kind: string, namespace: string, name: string): string {
    text.lower(kind) + ":" + (namespace + "/" + name)
  }

  // ---- Splitting and trimming ----

  lemma {:induction false} SplitAtFirst(a: string, sep: char, b: string)
    requires sep !in a
    ensures SplitOnce(a + [sep] + b, sep) == Some((a, b))
  {
    var s := a + [sep] + b;
    if a == "" {
      assert s[1..] == b;
    } else {
      assert s[0] == a[0] && s[1..] == a[1..] + [sep] + b;
      SplitAtFirst(a[1..], sep, b);
      assert [a[0]] + a[1..] == a;
    }
  }

  /** No whitespace at either end. */
  predicate Trimmed(text: Text, s: string) {
    s == "" || (!text.isSpace(s[0]) && !text.isSpace(s[|s| - 1]))
  }

  lemma {:induction false} TrimStartTrims(text: Text, s: string)
    ensures TrimStart(text, s) == "" || !text.isSpace(TrimStart(text, s)[0])
  {
    if s != "" && text.isSpace(s[0]) { TrimStartTrims(text, s[1..]); }
  }

  lemma {:induction false} TrimEndTrims(text: Text, s: string)
    ensures var t := TrimEnd(text, s); t <= s && (t == "" || !text.isSpace(t[|t| - 1]))
  {
    if s != "" && text.isSpace(s[|s| - 1]) { TrimEndTrims(text, s[..|s| - 1]); }
  }

  /** Trimming trims, and leaves trimmed text alone. */
  lemma TrimIs(text: Text, s: string)
    ensures Trimmed(text, Trim(text, s))
    ensures Trimmed(text, s) <==> Trim(text, s) == s
  {
    TrimStartTrims(text, s);
    TrimEndTrims(text, TrimStart(text, s));
  }

  lemma {:induction false} TrimStartCuts(text: Text, s: string) returns (front: string)
    ensures s == front + TrimStart(text, s) && forall c :: c in front ==> text.isSpace(c)
  {
    front := "";
    if s != "" && text.isSpace(s[0]) {
      var rest := TrimStartCuts(text, s[1..]);
      front := [s[0]] + rest;
      assert s == [s[0]] + s[1..];
    }
  }

  lemma {:induction false} TrimEndCuts(text: Text, s: string) returns (back: string)
    ensures s == TrimEnd(text, s) + back && forall c :: c in back ==> text.isSpace(c)
  {
    back := "";
    if s != "" && text.isSpace(s[|s| - 1]) {
      var rest := TrimEndCuts(text, s[..|s| - 1]);
      back := rest + [s[|s| - 1]];
      assert s == s[..|s| - 1] + [s[|s| - 1]];
    }
  }

  /** Trimming cuts off whitespace only. */
  lemma TrimCuts(text: Text, s: string) returns (front: string, back: string)
    ensures s == front + Trim(text, s) + back
    ensures forall c :: c in front + back ==> text.isSpace(c)
  {
    front := TrimStartCuts(text, s);
    back := TrimEndCuts(text, TrimStart(text, s));
  }

  // ---- What references are accepted, and as what ----

  /** Trimmed text `t` reads as `r`: before the first colon, if something stands there, the kind, in lower case; of
      what is left, before the first slash, if there is one, the namespace, else "default"; and the name, which is not
      empty. */
  ghost predicate Reads(text: Text, t: string, r: EntityRef) {
    if r.kind.Some? then exists k, rest :: ReadsKind(text, t, r, k, rest)
    else (':' in t ==> t[0] == ':') && ReadsPath(t, r.namespace, r.name)
  }

  ghost predicate ReadsKind(text: Text, t: string, r: EntityRef, k: string, rest: string) {
    k != "" && ':' !in k && t == k + [':'] + rest && r.kind == Some(text.lower(k))
        && ReadsPath(rest, r.namespace, r.name)
  }

  ghost predicate ReadsPath(rest: string, namespace: string, name: string) {
    && name != "" && '/' !in namespace
    && (if '/' in rest then rest == namespace + ['/'] + name else namespace == "default" && name == rest)
  }

  lemma PathIs(kind: Option<string>, rest: string, r: EntityRef)
    ensures ParsePath(kind, rest) == Some(r) <==> r.kind == kind && ReadsPath(rest, r.namespace, r.name)
  {
    if '/' in rest && ReadsPath(rest, r.namespace, r.name) { SplitAtFirst(r.namespace, '/', r.name); }
  }

  lemma KindIs(text: Text, t: string, r: EntityRef, k: string, rest: string)
    requires ReadsKind(text, t, r, k, rest)
    ensures ParseTrimmed(text, t) == Some(r)
  {
    SplitAtFirst(k, ':', rest);
    PathIs(r.kind, rest, r);
  }

  /** A reference is accepted as `r` if and only if, trimmed, it reads as `r`; so it is refused if and only if it
      reads as nothing, and it never reads as two things. */
  lemma ParseIs(text: Text, s: string, r: EntityRef)
    ensures Parse(text, s) == Some(r) <==> Reads(text, Trim(text, s), r)
  {
    var t := Trim(text, s);
    var parts := SplitOnce(t, ':');
    if parts.Some? && parts.value.0 != "" {
      PathIs(Some(text.lower(parts.value.0)), parts.value.1, r);
      if Parse(text, s) == Some(r) { assert ReadsKind(text, t, r, parts.value.0, parts.value.1); }
    } else {
      PathIs(None, t, r);
    }
    if k, rest :| ReadsKind(text, t, r, k, rest) { KindIs(text, t, r, k, rest); }
  }

  // ---- What a successful parse says about its input ----

  lemma PathReads(kind: Option<string>, namespace: string, name: string)
    requires '/' !in namespace && name != ""
    ensures ParsePath(kind, namespace + "/" + name) == Some(EntityRef(kind, namespace, name))
  {
    SplitAtFirst(namespace, '/', name);
    assert namespace + "/" + name == namespace + ['/'] + name;
  }

  /** The canonical form of a reference reads back as itself, given that its kind is settled text without a colon
      and, if it has none, that there is no colon anywhere. */
  lemma CanonicalReads(text: Text, r: EntityRef)
    requires '/' !in r.namespace && r.name != ""
    requires Trimmed(text, Canonical(r))
    requires if r.kind.Some? then r.kind.value != "" && ':' !in r.kind.value && text.lower(r.kind.value) == r.kind.value
             else ':' !in r.namespace && ':' !in r.name
    ensures Parse(text, Canonical(r)) == Some(r)
  {
    var path := r.namespace + "/" + r.name;
    TrimIs(text, Canonical(r));
    PathReads(r.kind, r.namespace, r.name);
    if r.kind.Some? {
      SplitAtFirst(r.kind.value, ':', path);
    }
  }

  lemma ParsePathFacts(kind: Option<string>, rest: string)
    requires ParsePath(kind, rest).Some?
    ensures var r := ParsePath(kind, rest).value;
            && '/' !in r.namespace && r.name != "" && r.kind == kind
            && (if '/' in rest then rest == r.namespace + "/" + r.name else r.namespace == "default" && r.name == rest)
            && rest != "" && r.name[|r.name| - 1] == rest[|rest| - 1]
            && (':' !in rest ==> ':' !in r.namespace && ':' !in r.name)
  {
  }

  /** The one family of accepted references that do not survive printing: those that start with a colon and have no
      slash. */
  predicate Degenerate(t: string) { t != "" && t[0] == ':' && '/' !in t }

  lemma KindlessRoundTrip(text: Text, t: string)
    requires IsText(text) && Trimmed(text, t) && (':' !in t || t[0] == ':') && ParsePath(None, t).Some?
             && !Degenerate(t)
    ensures Parse(text, Canonical(ParsePath(None, t).value)) == Some(ParsePath(None, t).value)
  {
    var r := ParsePath(None, t).value;
    ParsePathFacts(None, t);
    if ':' in t {
      // Printing gives the input back, so it parses as it did.
      assert Canonical(r) == t;
      TrimIs(text, t);
      var parts := SplitOnce(t, ':').value;
      assert parts.0 == "";
    } else {
      assert Canonical(r) == r.namespace + "/" + r.name;
      CanonicalReads(text, r);
    }
  }

  lemma KindRoundTrip(text: Text, k: string, rest: string)
    requires IsText(text) && Trimmed(text, k + [':'] + rest) && k != "" && ':' !in k
             && ParsePath(Some(text.lower(k)), rest).Some?
    ensures Parse(text, Canonical(ParsePath(Some(text.lower(k)), rest).value)) == ParsePath(Some(text.lower(k)), rest)
  {
    var t, kind := k + [':'] + rest, text.lower(k);
    var r := ParsePath(Some(kind), rest).value;
    ParsePathFacts(Some(kind), rest);
    assert t[0] == k[0] && t[|t| - 1] == rest[|rest| - 1];
    var c := Canonical(r);
    assert c[0] == kind[0] && c[|c| - 1] == r.name[|r.name| - 1];
    CanonicalReads(text, r);
  }

  lemma DegenerateChanges(text: Text, t: string)
    requires IsText(text) && Trimmed(text, t) && Degenerate(t)
    ensures Parse(text, Canonical(EntityRef(None, "default", t))) != Some(EntityRef(None, "default", t))
  {
  }

  /** Printing a parsed reference and parsing it again gives the same reference, except exactly for references that,
      trimmed, start with a colon and have no slash. */
  lemma RoundTrip(text: Text, s: string)
    requires IsText(text) && Parse(text, s).Some?
    ensures Parse(text, Canonical(Parse(text, s).value)) == Parse(text, s) <==> !Degenerate(Trim(text, s))
  {
    var t := Trim(text, s);
    TrimIs(text, s);
    var parts := SplitOnce(t, ':');
    if parts.Some? && parts.value.0 != "" {
      KindRoundTrip(text, parts.value.0, parts.value.1);
    } else if Degenerate(t) {
      DegenerateChanges(text, t);
    } else {
      KindlessRoundTrip(text, t);
    }
  }

  /** The reference an entity prints parses back to its lowercased kind, namespace and name exactly when its kind is
      non-empty and free of colons, its namespace free of slashes, its name non-empty, and the print has no outer
      whitespace. */
  lemma EntityRefParsesBack(text: Text, kind: string, namespace: string, name: string)
    requires IsText(text)
    ensures var printed := EntityRefOf(text, kind, namespace, name);
            Parse(text, printed) == Some(EntityRef(Some(text.lower(kind)), namespace, name))
            <==> kind != "" && ':' !in kind && '/' !in namespace && name != "" && Trimmed(text, printed)
  {
    var printed, r := EntityRefOf(text, kind, namespace, name), EntityRef(Some(text.lower(kind)), namespace, name);
    if kind != "" && ':' !in kind && '/' !in namespace && name != "" && Trimmed(text, printed) {
      assert Canonical(r) == printed;
      CanonicalReads(text, r);
    } else if Parse(text, printed) == Some(r) {
      ParsedBack(text, kind, namespace, name);
    }
  }

  /** What a successful parse with a kind says about trimmed text. */
  lemma KindFacts(text: Text, t: string) returns (k: string)
    requires ParseTrimmed(text, t).Some? && ParseTrimmed(text, t).value.kind.Some?
    ensures var r := ParseTrimmed(text, t).value;
            && r.kind.value == text.lower(k) && k != "" && ':' !in k && '/' !in r.namespace && r.name != ""
            && t != "" && t[0] == k[0] && t[|t| - 1] == r.name[|r.name| - 1]
  {
    var parts := SplitOnce(t, ':').value;
    k := parts.0;
    ParsePathFacts(Some(text.lower(k)), parts.1);
    assert t[|t| - 1] == parts.1[|parts.1| - 1];
  }

  lemma ParsedBack(text: Text, kind: string, namespace: string, name: string)
    requires IsText(text)
    requires Parse(text, EntityRefOf(text, kind, namespace, name))
             == Some(EntityRef(Some(text.lower(kind)), namespace, name))
    ensures kind != "" && ':' !in kind && '/' !in namespace && name != ""
            && Trimmed(text, EntityRefOf(text, kind, namespace, name))
  {
    var printed := EntityRefOf(text, kind, namespace, name);
    TrimIs(text, printed);
    var k := KindFacts(text, Trim(text, printed));
    EndsOf(text.lower(kind), namespace, name);
    assert text.isSpace(text.lower(k)[0]) <==> text.isSpace(k[0]);
  }

  lemma EndsOf(kind: string, namespace: string, name: string)
    requires kind != "" && name != ""
    ensures var printed := kind + ":" + (namespace + "/" + name);
            printed[0] == kind[0] && printed[|printed| - 1] == name[|name| - 1]
  {
  }

  // ---- ASCII is an instance ----

  function LowerChar(c: char): char { if 'A' <= c <= 'Z' then c - 'A' + 'a' else c }

  function LowerAscii(s: string): string { seq(|s|, i requires 0 <= i < |s| => LowerChar(s[i])) }

  lemma LowerAsciiFacts(s: string)
    ensures LowerAscii(LowerAscii(s)) == LowerAscii(s)
    ensures ':' in LowerAscii(s) <==> ':' in s
  {
    if ':' in s {
      var i :| 0 <= i < |s| && s[i] == ':';
      assert LowerAscii(s)[i] == ':';
    }
  }

  /** The facts assumed of the Unicode operations hold of their ASCII restriction. */
  lemma AsciiIsText()
    ensures IsText(Text(LowerAscii, c => c in " \t\n\r"))
    ensures LowerAscii("@AMZ[amz") == "@amz[amz"
  {
    forall s ensures LowerAscii(LowerAscii(s)) == LowerAscii(s) && (':' in LowerAscii(s) <==> ':' in s) {
      LowerAsciiFacts(s);
    }
  }
}
