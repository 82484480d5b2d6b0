/** The entities of cmd/terva-apidiff: symbols, the references in their
    signatures, and the manifest that classes each package. */
module Api {

  datatype Class = Stable | Unstable

  /** A name a signature mentions: its qualifier as written ("" for the
      package's own), the import path that resolves to ("" when none does), and
      the unexported type it was reached through ("" when named directly). */
  datatype Ref = Ref(qual: string, path: string, name: string, via: string)

  datatype Symbol = Symbol(name: string, kind: string, sig: string, unstable: bool, refs: seq<Ref>)

  /** A line of the manifest. */
  datatype Entry = Entry(pkg: string, cls: Class)
}
