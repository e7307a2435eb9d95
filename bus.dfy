/**
 * Vocabulary shared by every driver of the property bus: property states,
 * permissions, the Option wrapper, one-of-many switch selection and the
 * property filter used by enumerate and change requests.
 */
module Bus {

  datatype Option<T> = None | Some(value: T)

  /** The state of a property: the asynchronous-operation state machine. */
  datatype State = Idle | Ok | Busy | Alert

  datatype Perm = ReadOnly | ReadWrite | WriteOnly

  /**
   * A property filter as enumerate and change requests carry it: no property
   * at all matches everything; an empty property name matches every
   * property of the named device.
   */
  datatype Filter = Everything | Only(device: string, name: string)

  predicate Matches(device: string, name: string, f: Filter)
  {
    match f
    case Everything => true
    case Only(d, n) => d == device && (n == "" || n == name)
  }

  /** The values of a switch property with n items where item i alone is on. */
  function OnlyOn(n: nat, i: nat): seq<bool>
  {
    seq(n, j => j == i)
  }

  /** The number of selected items of a switch property. */
  function CountSelected(s: seq<bool>): (c: nat)
    ensures c <= |s|
  {
    if s == [] then 0 else CountSelected(s[..|s| - 1]) + (if s[|s| - 1] then 1 else 0)
  }

  /**
   * The framework's set-switch call on a one-of-many property of n items:
   * the chosen item is on, every other item is off.
   */
  function SelectOnly(n: nat, i: nat): (r: seq<bool>)
    requires i < n
    ensures |r| == n && r[i]
    ensures forall j :: 0 <= j < n && j != i ==> !r[j]
    ensures CountSelected(r) == 1
  {
    OnlyOnCount(n, i);
    OnlyOn(n, i)
  }

  lemma {:induction false} OnlyOnCount(n: nat, i: nat)
    ensures CountSelected(OnlyOn(n, i)) == (if i < n then 1 else 0)
  {
    if n > 0 {
      assert OnlyOn(n, i)[..n - 1] == OnlyOn(n - 1, i);
      OnlyOnCount(n - 1, i);
    }
  }
}
