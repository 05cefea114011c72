/** What the two target backends share: frames over named entries, and the wanted host set. */
module HostAccess {
  /** Everything but the entry of one name agrees. */
  ghost predicate SameExcept<V>(m: map<string, V>, m': map<string, V>, name: string) {
    && (forall n :: n != name ==> (n in m' <==> n in m))
    && (forall n :: n != name && n in m ==> n in m' && m'[n] == m[n])
  }

  /** Exactly the host, or nobody for the empty name. */
  function Wanted(host: string): set<string> {
    if host == "" then {} else {host}
  }
}
