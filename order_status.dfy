/**
 * The order life cycle: the ten order states and the successor function
 * that advances an order along the path of its consumption type.
 *
 * Consumption types: 0 dine-in, 1 dine-in with a deposit, 2 takeaway,
 * 3 delivery; -1 means "keep the status the caller gave".
 */
module OrderStatus {
  import opened Common

  const TO_BE_PAID_MARGIN: int := 0
  const TO_BE_PAID: int := 1
  const CONFIRMING: int := 2
  const PREPARING_MEAL: int := 3
  const TO_HAVE_A_MEAL: int := 4
  const MEAL_WAITING: int := 5
  const IN_DELIVERY: int := 6
  const COMPLETED: int := 7
  const CANCELING: int := 8
  const CANCELLED: int := 9

  /** The status paths, one string of state digits per consumption type. */
  const PATHS: seq<string> := ["217", "023417", "12357", "12367"]

  /** The path of a consumption type as a sequence of states. */
  function Path(consumeType: int): (p: seq<int>)
    requires 0 <= consumeType < 4
    ensures |p| == |PATHS[consumeType]|
    ensures forall i :: 0 <= i < |p| ==> p[i] == PATHS[consumeType][i] as int - '0' as int
  {
    match consumeType
    case 0 => [2, 1, 7]
    case 1 => [0, 2, 3, 4, 1, 7]
    case 2 => [1, 2, 3, 5, 7]
    case 3 => [1, 2, 3, 6, 7]
  }

  /** `sub` occurs in `s` starting at position `j`. */
  predicate OccursAt(s: string, sub: string, j: nat)
  {
    j + |sub| <= |s| && s[j..j + |sub|] == sub
  }

  lemma OccursAtTail(s: string, sub: string, j: nat)
    requires |s| > 0
    ensures OccursAt(s, sub, j + 1) == OccursAt(s[1..], sub, j)
  {
    if j + 1 + |sub| <= |s| {
      assert s[j + 1..j + 1 + |sub|] == s[1..][j..j + |sub|];
    }
  }

  /** Java's String.indexOf: the first position where `sub` occurs in `s`, or -1. */
  function IndexOf(s: string, sub: string): (i: int)
    ensures -1 <= i <= |s|
    ensures i >= 0 ==> OccursAt(s, sub, i)
    ensures forall j: nat :: j < i ==> !OccursAt(s, sub, j)
    ensures i == -1 ==> forall j: nat :: !OccursAt(s, sub, j)
    decreases |s|
  {
    if OccursAt(s, sub, 0) then 0
    else if |s| == 0 then -1
    else
      var k := IndexOf(s[1..], sub);
      assert forall j: nat :: OccursAt(s, sub, j + 1) == OccursAt(s[1..], sub, j) by {
        forall j: nat ensures OccursAt(s, sub, j + 1) == OccursAt(s[1..], sub, j) {
          OccursAtTail(s, sub, j);
        }
      }
      assert forall j: nat :: j > 0 ==> OccursAt(s, sub, j) == OccursAt(s[1..], sub, j - 1) by {
        forall j: nat | j > 0 ensures OccursAt(s, sub, j) == OccursAt(s[1..], sub, j - 1) {
          OccursAtTail(s, sub, j - 1);
        }
      }
      if k == -1 then -1 else k + 1
  }

  /** IndexOf finds the first occurrence. */
  lemma IndexOfIsFirst(s: string, sub: string, k: nat)
    requires OccursAt(s, sub, k)
    requires forall j: nat :: j < k ==> !OccursAt(s, sub, j)
    ensures IndexOf(s, sub) == k
  {
  }

  /**
   * The status that follows `orderType` for an order of `consumeType`.
   * None stands for the index exceptions the lookup throws: an unknown
   * consumption type, or a status at the end of its path.
   */
  function NextStatus(consumeType: int, orderType: int): (r: Option<int>)
    ensures consumeType != -1 && orderType != CANCELING && !(0 <= consumeType < 4) ==> r.None?
    ensures 0 <= consumeType < 4 && orderType != CANCELING && r.Some? ==> r.value in Path(consumeType)
  {
    if consumeType == -1 then Some(orderType)
    else if orderType == CANCELING then Some(CANCELLED)
    else if !(0 <= consumeType < |PATHS|) then None
    else
      var s := PATHS[consumeType];
      var i := IndexOf(s, IntToString(orderType));
      if i + 1 < |s| then
        assert Path(consumeType)[i + 1] == s[i + 1] as int - '0' as int;
        Some(s[i + 1] as int - '0' as int)
      else None
  }

  /** A state rendered by String.valueOf is one digit character. */
  lemma SingleDigitString(t: int)
    requires 0 <= t < 10
    ensures IntToString(t) == [DigitChar(t)]
  {
  }

  /** A one-character string occurs exactly where its character stands. */
  lemma OccursSingle(s: string, c: char, j: nat)
    ensures OccursAt(s, [c], j) <==> j < |s| && s[j] == c
  {
    if j < |s| {
      assert s[j..j + 1] == [s[j]];
    }
  }

  /** No state appears twice on a path. */
  lemma PathDigitsDistinct(consumeType: int)
    requires 0 <= consumeType < 4
    ensures forall a, b :: 0 <= a < b < |PATHS[consumeType]| ==> PATHS[consumeType][a] != PATHS[consumeType][b]
  {
    var s := PATHS[consumeType];
    if consumeType == 0 {
      assert s == ['2', '1', '7'];
    } else if consumeType == 1 {
      assert s == ['0', '2', '3', '4', '1', '7'];
    } else if consumeType == 2 {
      assert s == ['1', '2', '3', '5', '7'];
    } else {
      assert s == ['1', '2', '3', '6', '7'];
    }
  }

  /** Looking up the string of the state at position k of a path finds k. */
  lemma IndexOfDigit(consumeType: int, k: int)
    requires 0 <= consumeType < 4
    requires 0 <= k < |Path(consumeType)|
    ensures IndexOf(PATHS[consumeType], IntToString(Path(consumeType)[k])) == k
  {
    var s := PATHS[consumeType];
    var p := Path(consumeType);
    SingleDigitString(p[k]);
    assert DigitChar(p[k]) == s[k];
    PathDigitsDistinct(consumeType);
    OccursSingle(s, s[k], k);
    forall j: nat | j < k ensures !OccursAt(s, [s[k]], j) {
      OccursSingle(s, s[k], j);
    }
    IndexOfIsFirst(s, [s[k]], k);
  }

  /**
   * Along its own path every state but the last is followed by the next
   * state of the path.
   */
  lemma NextIsSuccessorOnPath(consumeType: int, k: int)
    requires 0 <= consumeType < 4
    requires 0 <= k < |Path(consumeType)| - 1
    ensures NextStatus(consumeType, Path(consumeType)[k]) == Some(Path(consumeType)[k + 1])
  {
    var p := Path(consumeType);
    var s := PATHS[consumeType];
    IndexOfDigit(consumeType, k);
    assert IndexOf(s, IntToString(p[k])) + 1 == k + 1 < |s|;
    assert s[k + 1] as int - '0' as int == p[k + 1];
  }

  /** The last state of every path, Completed, has no successor: the lookup throws. */
  lemma CompletedHasNoSuccessor(consumeType: int)
    requires 0 <= consumeType < 4
    ensures Path(consumeType)[|Path(consumeType)| - 1] == COMPLETED
    ensures NextStatus(consumeType, COMPLETED) == None
  {
    IndexOfDigit(consumeType, |Path(consumeType)| - 1);
  }

  /**
   * A one-digit state that is not on the path (other than Canceling) is
   * not found by the lookup, which then answers the path's first state.
   */
  lemma OffPathGoesToFirst(consumeType: int, t: int)
    requires 0 <= consumeType < 4
    requires 0 <= t < 10 && t != CANCELING
    requires forall k :: 0 <= k < |Path(consumeType)| ==> Path(consumeType)[k] != t
    ensures NextStatus(consumeType, t) == Some(Path(consumeType)[0])
  {
    var s := PATHS[consumeType];
    SingleDigitString(t);
    forall j: nat ensures !OccursAt(s, [DigitChar(t)], j) {
      OccursSingle(s, DigitChar(t), j);
      if j < |s| {
        assert Path(consumeType)[j] != t;
      }
    }
  }

  /** For a valid consumption type and a one-digit state, a successor exists exactly when the state is not Completed. */
  lemma SuccessorDefinedIffNotCompleted(consumeType: int, t: int)
    requires 0 <= consumeType < 4
    requires 0 <= t < 10
    ensures NextStatus(consumeType, t).Some? <==> t != COMPLETED
  {
    var p := Path(consumeType);
    if t == COMPLETED {
      CompletedHasNoSuccessor(consumeType);
    } else if t != CANCELING {
      if k :| 0 <= k < |p| && p[k] == t {
        assert k != |p| - 1;
        NextIsSuccessorOnPath(consumeType, k);
      } else {
        OffPathGoesToFirst(consumeType, t);
      }
    }
  }

  /** Apply NextStatus `n` times, stopping at the first undefined step. */
  function Advance(consumeType: int, t: int, n: nat): Option<int>
    decreases n
  {
    if n == 0 then Some(t)
    else match NextStatus(consumeType, t)
      case None => None
      case Some(t') => Advance(consumeType, t', n - 1)
  }

  /** One more step is one NextStatus followed by the rest. */
  lemma AdvanceStep(consumeType: int, t: int, t': int, n: nat)
    requires NextStatus(consumeType, t) == Some(t')
    ensures Advance(consumeType, t, n + 1) == Advance(consumeType, t', n)
  {
  }

  /** Starting from its first state, every path reaches Completed after |path| - 1 steps. */
  lemma {:induction false} PathReachesCompleted(consumeType: int)
    requires 0 <= consumeType < 4
    ensures Advance(consumeType, Path(consumeType)[0], |Path(consumeType)| - 1) == Some(COMPLETED)
  {
    var p := Path(consumeType);
    var k := |p| - 1;
    var n: nat := 0;
    // walk backwards: from position k the remaining n steps end in Completed
    while k > 0
      invariant 0 <= k < |p| && n == |p| - 1 - k
      invariant Advance(consumeType, p[k], n) == Some(COMPLETED)
    {
      NextIsSuccessorOnPath(consumeType, k - 1);
      AdvanceStep(consumeType, p[k - 1], p[k], n);
      k := k - 1;
      n := n + 1;
    }
  }

  /** The two requests that bypass the paths: -1 keeps the status, Canceling becomes Cancelled. */
  lemma BypassRules(consumeType: int, t: int)
    ensures consumeType == -1 ==> NextStatus(consumeType, t) == Some(t)
    ensures consumeType != -1 && t == CANCELING ==> NextStatus(consumeType, t) == Some(CANCELLED)
  {
  }
}
