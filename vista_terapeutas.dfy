/**
 * The therapist directory (`VistaTerapeutas`): the list of distinct therapy
 * types offered in the type selector, and the list of therapists shown for a
 * search text and a selected type.
 */
module VistaTerapeutas {
  import opened Wrappers
  import opened Seqs
  import opened JsString

  /** One fetched therapist; a missing or null `tipo_terapeuta` is `None`. */
  datatype Therapist = Therapist(nombre: string, apellido: string, tipo_terapeuta: Option<string>)

  // ---------------------------------------------------------------- tiposUnicos

  /** The position of the first occurrence of `x` in `s`. */
  function FirstIndex(s: seq<string>, x: string): (i: nat)
    requires x in s
    ensures i < |s| && s[i] == x && x !in s[..i]
  {
    if s[0] == x then 0
    else
      var j := FirstIndex(s[1..], x);
      assert s[..j + 1] == [s[0]] + s[1..][..j];
      j + 1
  }

  lemma FirstIndexUnique(s: seq<string>, x: string, i: int)
    requires 0 <= i < |s| && s[i] == x && x !in s[..i]
    ensures FirstIndex(s, x) == i
  {
    var j := FirstIndex(s, x);
    assert forall k :: 0 <= k < i ==> s[..i][k] == s[k];
    assert forall k :: 0 <= k < j ==> s[..j][k] == s[k];
  }

  lemma FirstIndexPrefix(s: seq<string>, n: int, x: string)
    requires 0 <= n <= |s| && x in s[..n]
    ensures FirstIndex(s, x) == FirstIndex(s[..n], x) < n
  {
    var i := FirstIndex(s[..n], x);
    assert s[..n][..i] == s[..i];
    FirstIndexUnique(s, x, i);
  }

  /** No value appears twice in `d`. */
  predicate NoDuplicates(d: seq<string>) {
    forall i, j :: 0 <= i < j < |d| ==> d[i] != d[j]
  }

  /** `d` and `s` hold the same values. */
  ghost predicate SameValues(d: seq<string>, s: seq<string>) {
    forall x :: x in d <==> x in s
  }

  /** The values of `d` appear in `s`, and they first appear in `s` in the order of `d`. */
  ghost predicate InFirstOrder(d: seq<string>, s: seq<string>) {
    forall i, j :: 0 <= i < j < |d| ==> d[i] in s && d[j] in s && FirstIndex(s, d[i]) < FirstIndex(s, d[j])
  }

  lemma DedupStep(s: seq<string>, d: seq<string>)
    requires s != [] && NoDuplicates(d) && SameValues(d, s[..|s| - 1]) && InFirstOrder(d, s[..|s| - 1])
    ensures var r := if s[|s| - 1] in d then d else d + [s[|s| - 1]];
            NoDuplicates(r) && SameValues(r, s) && InFirstOrder(r, s)
  {
    var p, x := s[..|s| - 1], s[|s| - 1];
    assert s == p + [x];
    forall y | y in d ensures y in s && FirstIndex(s, y) == FirstIndex(p, y) < |p| {
      FirstIndexPrefix(s, |p|, y);
    }
    var r := if x in d then d else d + [x];
    forall y ensures y in r <==> y in s {
      assert y in s <==> y in p || y == x;
    }
    if x !in d {
      FirstIndexUnique(s, x, |p|);
      forall i, j | 0 <= i < j < |r|
        ensures r[i] in s && r[j] in s && FirstIndex(s, r[i]) < FirstIndex(s, r[j])
      {
        assert r[i] == d[i];
        assert r[j] == if j < |d| then d[j] else x;
      }
    }
  }

  /** `[...new Set(s)]`: each value once, in the order the set first saw it. */
  function Dedup(s: seq<string>): (r: seq<string>)
    ensures forall i, j :: 0 <= i < j < |r| ==> r[i] != r[j]
    ensures forall x :: x in r <==> x in s
    ensures forall i, j :: 0 <= i < j < |r| ==> FirstIndex(s, r[i]) < FirstIndex(s, r[j])
  {
    if s == [] then []
    else
      var d := Dedup(s[..|s| - 1]);
      DedupStep(s, d);
      if s[|s| - 1] in d then d else d + [s[|s| - 1]]
  }

  /** `Boolean(t.tipo_terapeuta)`. */
  predicate HasType(t: Therapist) {
    t.tipo_terapeuta.Some? && t.tipo_terapeuta.value != ""
  }

  /** `terapeutas.map(t => t.tipo_terapeuta).filter(Boolean)`. */
  function TruthyTypes(ts: seq<Therapist>): seq<string> {
    Map((t: Therapist) => t.tipo_terapeuta.GetOr(""), Filter(HasType, ts))
  }

  lemma TruthyTypesMembership(ts: seq<Therapist>, x: string)
    ensures x in TruthyTypes(ts) <==> x != "" && exists i :: 0 <= i < |ts| && ts[i].tipo_terapeuta == Some(x)
  {
    var f := Filter(HasType, ts);
    if x in TruthyTypes(ts) {
      var k :| 0 <= k < |f| && TruthyTypes(ts)[k] == x;
      assert f[k] in ts && HasType(f[k]);
      var i :| 0 <= i < |ts| && ts[i] == f[k];
      assert ts[i].tipo_terapeuta == Some(x);
    }
    if x != "" && exists i :: 0 <= i < |ts| && ts[i].tipo_terapeuta == Some(x) {
      var i :| 0 <= i < |ts| && ts[i].tipo_terapeuta == Some(x);
      assert HasType(ts[i]);
      assert ts[i] in f;
      var k :| 0 <= k < |f| && f[k] == ts[i];
      assert TruthyTypes(ts)[k] == x;
    }
  }

  /** `tiposUnicos`. */
  function TiposUnicos(ts: seq<Therapist>): seq<string> {
    Dedup(TruthyTypes(ts))
  }

  /**
   * The type list has no duplicates and no empty entry, holds exactly the
   * truthy types of the therapists, and lists them in order of first appearance.
   */
  lemma TiposUnicosSpec(ts: seq<Therapist>)
    ensures forall i, j :: 0 <= i < j < |TiposUnicos(ts)| ==> TiposUnicos(ts)[i] != TiposUnicos(ts)[j]
    ensures "" !in TiposUnicos(ts)
    ensures forall x :: x in TiposUnicos(ts) <==> x != "" && exists i :: 0 <= i < |ts| && ts[i].tipo_terapeuta == Some(x)
    ensures forall i, j :: 0 <= i < j < |TiposUnicos(ts)| ==>
              FirstIndex(TruthyTypes(ts), TiposUnicos(ts)[i]) < FirstIndex(TruthyTypes(ts), TiposUnicos(ts)[j])
  {
    var tt := TruthyTypes(ts);
    var r := Dedup(tt);
    assert TiposUnicos(ts) == r;
    forall x ensures x in r <==> x != "" && exists i :: 0 <= i < |ts| && ts[i].tipo_terapeuta == Some(x) {
      TruthyTypesMembership(ts, x);
    }
    TruthyTypesMembership(ts, "");
  }

  // ---------------------------------------------------------------- terapeutasFiltrados

  /** `${t.nombre} ${t.apellido}`. */
  function FullName(t: Therapist): string {
    t.nombre + " " + t.apellido
  }

  /** The filter's test: the name matches the search text and the type matches the selector. */
  predicate Matches(t: Therapist, search: string, tipoFiltro: string) {
    Contains(ToLower(FullName(t)), ToLower(search))
    && (tipoFiltro == "todos" || t.tipo_terapeuta == Some(tipoFiltro))
  }

  /** `terapeutasFiltrados`. */
  function Filtrados(ts: seq<Therapist>, search: string, tipoFiltro: string): seq<Therapist> {
    Filter((t: Therapist) => Matches(t, search, tipoFiltro), ts)
  }

  /**
   * The shown therapists keep the fetched order, and a therapist is shown iff
   * its lower-cased full name contains the lower-cased search text and the
   * selector is 'todos' or names its type.
   */
  lemma FiltradosSpec(ts: seq<Therapist>, search: string, tipoFiltro: string)
    ensures IsSubsequence(Filtrados(ts, search, tipoFiltro), ts)
    ensures forall t :: t in Filtrados(ts, search, tipoFiltro) <==>
              t in ts && (exists i :: OccursAt(ToLower(FullName(t)), ToLower(search), i))
              && (tipoFiltro == "todos" || t.tipo_terapeuta == Some(tipoFiltro))
  {
    FilterIsSubsequence((t: Therapist) => Matches(t, search, tipoFiltro), ts);
    var r := Filtrados(ts, search, tipoFiltro);
    forall t ensures t in r <==> t in ts && Matches(t, search, tipoFiltro) {
      if t in r {
        var k :| 0 <= k < |r| && r[k] == t;
      }
      if t in ts && Matches(t, search, tipoFiltro) {
        var k :| 0 <= k < |ts| && ts[k] == t;
      }
    }
  }

  /** An empty search with 'todos' shows every therapist. */
  lemma EmptySearchShowsAll(ts: seq<Therapist>)
    ensures Filtrados(ts, "", "todos") == ts
  {
    forall i | 0 <= i < |ts| ensures Matches(ts[i], "", "todos") {
      assert OccursAt(ToLower(FullName(ts[i])), ToLower(""), 0);
    }
    FilterAll((t: Therapist) => Matches(t, "", "todos"), ts);
  }

  /** Choosing a type shows only therapists of that type. */
  lemma TypeFilterNarrows(ts: seq<Therapist>, search: string, tipo: string)
    requires tipo != "todos"
    ensures forall i :: 0 <= i < |Filtrados(ts, search, tipo)| ==>
              Filtrados(ts, search, tipo)[i].tipo_terapeuta == Some(tipo)
  {
  }
}
