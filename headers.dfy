/**
 * The header containers the interceptor and the logger work with.
 *
 * A ktor `HeadersBuilder` keeps one entry per header name, compares names
 * without regard to case, and lists its entries in insertion order;
 * `entries()` gives them as (name, values) pairs. `Builder` is that list
 * of pairs. `KiwanoHttpHeader` is the library's own (key, value-list) pair
 * that is serialized into the log row.
 */
module Headers {
  import opened Wrappers

  datatype HeaderEntry = HeaderEntry(name: string, values: seq<string>)

  datatype KiwanoHttpHeader = KiwanoHttpHeader(key: string, value: seq<string>)

  /** The entries of a HeadersBuilder, in insertion order. */
  type Builder = seq<HeaderEntry>

  const ContentType: string := "Content-Type"
  const ContentLength: string := "Content-Length"

  function LowerAscii(c: char): char {
    if 'A' <= c <= 'Z' then (c as int - 'A' as int + 'a' as int) as char else c
  }

  function LowerName(s: string): (r: string)
    ensures |r| == |s|
  {
    if s == [] then [] else [LowerAscii(s[0])] + LowerName(s[1..])
  }

  /** Header names are compared ignoring (ASCII) case. */
  predicate NameEquals(a: string, b: string) {
    LowerName(a) == LowerName(b)
  }

  /** The position of the entry named `name`, if there is one (the first, if several). */
  function IndexOfName(b: Builder, name: string): (r: Option<nat>)
    ensures r.Some? ==> r.value < |b| && NameEquals(b[r.value].name, name)
    ensures r.Some? ==> forall j :: 0 <= j < r.value ==> !NameEquals(b[j].name, name)
    ensures r.None? ==> forall j :: 0 <= j < |b| ==> !NameEquals(b[j].name, name)
  {
    if b == [] then None
    else if NameEquals(b[0].name, name) then Some(0)
    else match IndexOfName(b[1..], name)
      case Some(i) => Some(i + 1)
      case None => None
  }

  /** `contains(name)` */
  predicate Contains(b: Builder, name: string) {
    IndexOfName(b, name).Some?
  }

  /** `getAll(name)`: the values recorded under `name`, if any. */
  function Lookup(b: Builder, name: string): Option<seq<string>> {
    match IndexOfName(b, name)
    case Some(i) => Some(b[i].values)
    case None => None
  }

  /** Every name occurs at most once: what a HeadersBuilder always keeps. */
  predicate DistinctNames(b: Builder) {
    forall i, j :: 0 <= i < j < |b| ==> !NameEquals(b[i].name, b[j].name)
  }

  /**
   * `appendAll(name, values)` (and `append(name, value)` with one value):
   * the values are added to the entry of that name, which is created at
   * the end when the name is new.
   */
  function Append(b: Builder, name: string, vs: seq<string>): (r: Builder)
    ensures Lookup(r, name) == Some(Lookup(b, name).GetOr([]) + vs)
    ensures !Contains(b, name) ==> r == b + [HeaderEntry(name, vs)]
    ensures Contains(b, name) ==> |r| == |b|
    ensures Contains(b, name) ==> IndexOfName(r, name) == IndexOfName(b, name)
    ensures Contains(b, name) ==>
      forall j | 0 <= j < |b| :: r[j].name == b[j].name && (j != IndexOfName(b, name).value ==> r[j] == b[j])
  {
    match IndexOfName(b, name)
    case Some(i) =>
      var r := b[i := HeaderEntry(b[i].name, b[i].values + vs)];
      SameNamesSameIndex(b, r, name);
      r
    case None =>
      var e := [HeaderEntry(name, vs)];
      assert IndexOfName(e, name) == Some(0);
      assert [] + vs == vs;
      IndexOfNameConcat(b, e, name);
      b + e
  }

  /** `appendAll(other)`: every entry of `es`, in order, appended into `b`. */
  function AppendAll(b: Builder, es: seq<HeaderEntry>): Builder
    decreases |es|
  {
    if es == [] then b else AppendAll(Append(b, es[0].name, es[0].values), es[1..])
  }

  /** A fresh `HeadersBuilder().apply { appendAll(existing) }`. */
  function CopyOf(existing: seq<HeaderEntry>): Builder {
    AppendAll([], existing)
  }

  /** Looking a name up in a concatenation finds it in the first part if it is there, else in the second. */
  lemma {:induction false} IndexOfNameConcat(b: Builder, c: Builder, name: string)
    ensures IndexOfName(b + c, name) ==
      if Contains(b, name) then IndexOfName(b, name)
      else match IndexOfName(c, name)
        case Some(i) => Some(|b| + i)
        case None => None
  {
    if b == [] {
      assert b + c == c;
    } else {
      assert (b + c)[0] == b[0];
      if !NameEquals(b[0].name, name) {
        assert (b + c)[1..] == b[1..] + c;
        IndexOfNameConcat(b[1..], c, name);
      }
    }
  }

  /** Only the names matter to IndexOfName. */
  lemma {:induction false} SameNamesSameIndex(b: Builder, c: Builder, name: string)
    requires |b| == |c| && forall j :: 0 <= j < |b| ==> b[j].name == c[j].name
    ensures IndexOfName(b, name) == IndexOfName(c, name)
  {
    if b != [] {
      SameNamesSameIndex(b[1..], c[1..], name);
    }
  }

  /** A name is in `b + c` exactly when it is in `b` or in `c`. */
  lemma ContainsConcat(b: Builder, c: Builder, name: string)
    ensures Contains(b + c, name) <==> Contains(b, name) || Contains(c, name)
  {
    IndexOfNameConcat(b, c, name);
  }

  /** Appending keeps the names of a builder distinct. */
  lemma AppendKeepsDistinct(b: Builder, name: string, vs: seq<string>)
    requires DistinctNames(b)
    ensures DistinctNames(Append(b, name, vs))
  {
    var r := Append(b, name, vs);
    match IndexOfName(b, name)
    case Some(i) =>
      assert forall j :: 0 <= j < |r| ==> r[j].name == b[j].name;
    case None =>
  }

  /** After one append a name is present exactly when it was, or when it is the appended one. */
  lemma AppendContains(b: Builder, n: string, vs: seq<string>, name: string)
    ensures Contains(Append(b, n, vs), name) <==> Contains(b, name) || NameEquals(n, name)
  {
    var r := Append(b, n, vs);
    if Contains(b, n) {
      assert forall j :: 0 <= j < |r| ==> r[j].name == b[j].name;
      SameNamesSameIndex(b, r, name);
      if NameEquals(n, name) {
        assert LowerName(n) == LowerName(name);
        var i := IndexOfName(b, n).value;
        assert NameEquals(b[i].name, name);
      }
    } else {
      LookupAddedAtEnd(b, HeaderEntry(n, vs), name);
    }
  }

  /** A name is in a non-empty builder exactly when it is the first entry's or in the rest. */
  lemma ContainsFirst(es: seq<HeaderEntry>, name: string)
    requires es != []
    ensures Contains(es, name) <==> NameEquals(es[0].name, name) || Contains(es[1..], name)
  {
    assert es == [es[0]] + es[1..];
    ContainsConcat([es[0]], es[1..], name);
  }

  /** After appendAll a name is present exactly when it was in the builder or among the appended entries. */
  lemma {:induction false} AppendAllContains(b: Builder, es: seq<HeaderEntry>, name: string)
    ensures Contains(AppendAll(b, es), name) <==> Contains(b, name) || Contains(es, name)
    decreases |es|
  {
    if es != [] {
      AppendAllContains(Append(b, es[0].name, es[0].values), es[1..], name);
      AppendContains(b, es[0].name, es[0].values, name);
      ContainsFirst(es, name);
    }
  }

  /** appendAll keeps a builder well formed. */
  lemma {:induction false} AppendAllKeepsDistinct(b: Builder, es: seq<HeaderEntry>)
    requires DistinctNames(b)
    ensures DistinctNames(AppendAll(b, es))
    decreases |es|
  {
    if es != [] {
      AppendKeepsDistinct(b, es[0].name, es[0].values);
      AppendAllKeepsDistinct(Append(b, es[0].name, es[0].values), es[1..]);
    }
  }

  /** Appending entries whose names are new and distinct just concatenates them. */
  lemma {:induction false} AppendAllOfDistinct(b: Builder, es: seq<HeaderEntry>)
    requires DistinctNames(b + es)
    ensures AppendAll(b, es) == b + es
    decreases |es|
  {
    if es != [] {
      forall j | 0 <= j < |b| ensures !NameEquals(b[j].name, es[0].name) {
        assert (b + es)[j] == b[j] && (b + es)[|b|] == es[0];
      }
      assert !Contains(b, es[0].name);
      assert b + es == (b + [es[0]]) + es[1..];
      AppendAllOfDistinct(b + [es[0]], es[1..]);
    }
  }

  /** Copying a builder's entries into a fresh builder gives the same entries back. */
  lemma CopyOfDistinct(existing: seq<HeaderEntry>)
    requires DistinctNames(existing)
    ensures CopyOf(existing) == existing
  {
    assert [] + existing == existing;
    AppendAllOfDistinct([], existing);
  }

  lemma CopyOfProperties(existing: seq<HeaderEntry>)
    ensures DistinctNames(CopyOf(existing))
    ensures forall name :: Contains(CopyOf(existing), name) <==> Contains(existing, name)
  {
    AppendAllKeepsDistinct([], existing);
    forall name ensures Contains(CopyOf(existing), name) <==> Contains(existing, name) {
      AppendAllContains([], existing, name);
    }
  }

  /** Looking a name up after one entry is added at the end. */
  lemma LookupAddedAtEnd(b: Builder, e: HeaderEntry, name: string)
    ensures Contains(b + [e], name) <==> Contains(b, name) || NameEquals(e.name, name)
    ensures Lookup(b + [e], name) ==
      if Contains(b, name) then Lookup(b, name)
      else if NameEquals(e.name, name) then Some(e.values)
      else None
  {
    IndexOfNameConcat(b, [e], name);
  }

  lemma ContentTypeIsNotContentLength()
    ensures !NameEquals(ContentType, ContentLength)
  {
  }
}
