/** What is generic and shared by every component. */
module Wrappers {
  datatype Option<+T> = None | Some(value: T)

  function Without<T>(q: seq<T>, i: nat): seq<T>
    requires i < |q|
  {
    q[..i] + q[i + 1..]
  }

  /** Two stretches, the second of which ends with `last`. */
  lemma Joined<T>(whole: seq<T>, front: seq<T>, a: seq<T>, init: seq<T>, b: seq<T>, last: seq<T>)
    requires front == a + init && whole == front + last && b == init + last
    ensures whole == a + b
  {
  }

  /** `part` stands in `whole` at `i`. */
  predicate StandsAt(part: string, whole: string, i: nat) {
    i + |part| <= |whole| && whole[i..i + |part|] == part
  }

  ghost predicate Occurs(part: string, whole: string) {
    exists i: nat :: StandsAt(part, whole, i)
  }
}
