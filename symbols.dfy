/**
 * The symbol table as the expression analyser and the directives see it:
 * entries keyed by name, symbol type and local-label environment.
 */
module Symbols {
  import opened Machine
  import opened Attrs

  /** The symbol types lookups distinguish (LABEL, MACRO, SY_UNDEF). */
  datatype SymType = Label | Macro | Undef

  datatype SymKey = SymKey(name: string, kind: SymType, env: int)

  /** A symbol entry: attribute word, extended attributes, value, type. */
  datatype Sym = Sym(sattr: Attr, sattre: set<ExtFlag>, svalue: Word, stype: SymType)

  type SymTab = map<SymKey, Sym>

  /** lookup(): an entry of this name, type and environment. */
  function Lookup(tab: SymTab, name: string, kind: SymType, env: int): (r: Option<SymKey>)
    ensures r.Some? ==> r.value in tab && r.value.name == name && tab[r.value].stype == kind
    ensures r.None? ==> forall k :: k in tab && k == SymKey(name, kind, env) ==> tab[k].stype != kind
  {
    var k := SymKey(name, kind, env);
    if k in tab && tab[k].stype == kind then Some(k) else None
  }

  /** A fresh entry as NewSymbol() creates it: no attributes, value 0. */
  function NewSym(kind: SymType): Sym
  {
    Sym({}, {}, 0, kind)
  }

  /** The environment a name is looked up in: local labels (names starting
      with '.') live in the current environment, all others in 0. */
  function EnvOf(name: string, curenv: int): int
  {
    if |name| > 0 && name[0] == '.' then curenv else 0
  }

  /** Lookup, creating the entry when it is absent (lookup/NewSymbol). */
  function Intern(tab: SymTab, name: string, kind: SymType, env: int): (r: (SymTab, SymKey))
    ensures r.1 == SymKey(name, kind, env) && r.1 in r.0
    ensures r.0[r.1].stype == kind
    ensures Lookup(tab, name, kind, env).Some? ==> r.0 == tab
    ensures Lookup(tab, name, kind, env).None? ==> r.0 == tab[r.1 := NewSym(kind)]
  {
    var k := SymKey(name, kind, env);
    if Lookup(tab, name, kind, env).Some? then (tab, k) else (tab[k := NewSym(kind)], k)
  }
}
