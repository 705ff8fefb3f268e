/** Events, and the filters that decide who receives them. */
module Events {
  import opened Text

  const ENTRY_UPSERTED := "nbox.entry.upserted"
  const KEEPALIVE := "nbox.keepalive"

  type PublicKey = nat

  /** Sealing is kept symbolic: a sealed body can only be opened by the key's owner. */
  datatype Body = Nothing | Clear(text: string) | Sealed(pub: PublicKey, subject: string, text: string)

  datatype Event = Event(id: string, etype: string, subject: string, body: Body)

  /** Both lists empty: receive everything. Otherwise at least one prefix, if any are given,
      and at least one type pattern, if any are given. */
  datatype Filter = Filter(prefixes: seq<string>, types: seq<string>)

  predicate MatchesPrefix(subject: string, prefixes: seq<string>) {
    prefixes == [] || exists i :: 0 <= i < |prefixes| && HasPrefix(subject, prefixes[i])
  }

  predicate MatchesPattern(etype: string, pattern: string) {
    if HasSuffix(pattern, "*") then HasPrefix(etype, TrimSuffix(pattern, "*")) else pattern == etype
  }

  predicate MatchesType(etype: string, patterns: seq<string>) {
    patterns == [] || exists i :: 0 <= i < |patterns| && MatchesPattern(etype, patterns[i])
  }

  predicate MatchesFilter(e: Event, f: Filter) {
    MatchesPrefix(e.subject, f.prefixes) && MatchesType(e.etype, f.types)
  }

  /** The pattern is the start of the type, followed by a star. */
  ghost predicate NamesStart(pattern: string, etype: string) {
    exists start: string :: pattern == start + "*" && start <= etype
  }

  /** A pattern matches the types that it names, or names the start of. */
  lemma PatternMeans(etype: string, pattern: string)
    ensures !HasSuffix(pattern, "*") ==> (MatchesPattern(etype, pattern) <==> etype == pattern)
    ensures HasSuffix(pattern, "*") ==> (MatchesPattern(etype, pattern) <==> NamesStart(pattern, etype))
  {
    if HasSuffix(pattern, "*") {
      var start := TrimSuffix(pattern, "*");
      assert pattern == start + "*";
      assert forall s: string :: pattern == s + "*" ==> s == start by {
        forall s: string | pattern == s + "*" ensures s == start {
          assert s == pattern[..|pattern| - 1];
        }
      }
    }
  }
}
