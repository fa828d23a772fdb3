/**
 * The bounded history list: a fixed-capacity array of move records with
 * shifting insert and remove. The model keeps the whole backing store
 * (`maxSize` slots) and the count of live slots, so stale slots past
 * `actualSize` are represented the way the array holds them.
 */
module ArrayList {
  import opened Wrappers

  /** One history record: start square, destination square, captured glyph. */
  datatype Node = Node(sRow: int, sCol: int, dRow: int, dCol: int, capturedPiece: char)

  /** The glyph stored by the sentinel `{-1,-1,-1,-1,-1}`: the char -1, byte 0xFF. */
  const SentinelPiece: char := 0xFF as char

  /** The record returned for a rejected read. */
  const Sentinel: Node := Node(-1, -1, -1, -1, SentinelPiece)

  datatype ListMessage = Success | InvalidArgument | Full | Empty

  datatype ArrayList = ArrayList(maxSize: int, actualSize: int, elements: seq<Node>)

  /** The shape every list built by `Create` keeps. */
  predicate Valid(l: ArrayList) {
    0 < l.maxSize && |l.elements| == l.maxSize && 0 <= l.actualSize <= l.maxSize
  }

  /** The live contents, in order. */
  function Items(l: ArrayList): seq<Node>
    requires Valid(l)
  {
    l.elements[..l.actualSize]
  }

  /** A list operation's message together with the list afterwards. */
  datatype Step = Step(msg: ListMessage, list: ArrayList)

  /**
   * `spArrayListCreate`: no list for a non-positive capacity, otherwise an
   * empty one. The uninitialised slots are modelled as sentinel records.
   */
  function Create(maxSize: int): (r: Option<ArrayList>)
    ensures maxSize <= 0 <==> r.None?
    ensures r.Some? ==> Valid(r.value) && r.value.maxSize == maxSize && Items(r.value) == []
  {
    if maxSize <= 0 then None
    else Some(ArrayList(maxSize, 0, seq(maxSize, _ => Sentinel)))
  }

  /** `spArrayListCopy`: a fresh list with the same capacity and live contents. */
  function Copy(src: ArrayList): (r: ArrayList)
    requires Valid(src)
    ensures Valid(r) && r.maxSize == src.maxSize && r.actualSize == src.actualSize
    ensures Items(r) == Items(src)
  {
    var blank := Create(src.maxSize).value;
    ArrayList(src.maxSize, src.actualSize, src.elements[..src.actualSize] + blank.elements[src.actualSize..])
  }

  /** `spArrayListClear`: forgets every element, keeps the capacity. */
  function Clear(src: ArrayList): (r: Step)
    requires Valid(src)
    ensures r.msg == Success && Valid(r.list)
    ensures r.list.maxSize == src.maxSize && Items(r.list) == []
  {
    Step(Success, src.(actualSize := 0))
  }

  /**
   * `spArrayListAddAt`, stated on the backing store: slots `index..size-1`
   * move one slot right, the new element lands at `index`, and slots past the
   * old size are left as they were.
   */
  function AddAt(src: ArrayList, elem: Node, index: int): (r: Step)
    requires Valid(src)
    ensures Valid(r.list) && r.list.maxSize == src.maxSize
    ensures (index < 0 || index > src.actualSize) ==> r == Step(InvalidArgument, src)
    ensures 0 <= index <= src.actualSize && src.actualSize == src.maxSize ==> r == Step(Full, src)
    ensures 0 <= index <= src.actualSize < src.maxSize ==>
              r.msg == Success && r.list.actualSize == src.actualSize + 1
              && Items(r.list) == Items(src)[..index] + [elem] + Items(src)[index..]
  {
    if index < 0 || index > src.actualSize then Step(InvalidArgument, src)
    else if src.actualSize == src.maxSize then Step(Full, src)
    else
      var e := src.elements;
      var n := src.actualSize;
      var shifted := e[..index] + [elem] + e[index..n] + e[n + 1..];
      assert shifted[..n + 1] == e[..n][..index] + [elem] + e[..n][index..];
      Step(Success, ArrayList(src.maxSize, n + 1, shifted))
  }

  /** `spArrayListAddFirst`. */
  function AddFirst(src: ArrayList, elem: Node): (r: Step)
    requires Valid(src)
    ensures Valid(r.list) && r.list.maxSize == src.maxSize
    ensures src.actualSize < src.maxSize ==> r.msg == Success && Items(r.list) == [elem] + Items(src)
    ensures src.actualSize == src.maxSize ==> r == Step(Full, src)
  {
    AddAt(src, elem, 0)
  }

  /** `spArrayListAddLast`. */
  function AddLast(src: ArrayList, elem: Node): (r: Step)
    requires Valid(src)
    ensures Valid(r.list) && r.list.maxSize == src.maxSize
    ensures src.actualSize < src.maxSize ==> r.msg == Success && Items(r.list) == Items(src) + [elem]
    ensures src.actualSize == src.maxSize ==> r == Step(Full, src)
  {
    AddAt(src, elem, src.actualSize)
  }

  /**
   * `spArrayListRemoveAt`: slots `index+1..size-1` move one slot left; the
   * last live slot keeps its old record, now stale. The EMPTY answer cannot
   * occur, because an empty list already fails the index test.
   */
  function RemoveAt(src: ArrayList, index: int): (r: Step)
    requires Valid(src)
    ensures Valid(r.list) && r.list.maxSize == src.maxSize
    ensures r.msg != Empty
    ensures (index < 0 || index >= src.actualSize) ==> r == Step(InvalidArgument, src)
    ensures 0 <= index < src.actualSize ==>
              r.msg == Success && r.list.actualSize == src.actualSize - 1
              && Items(r.list) == Items(src)[..index] + Items(src)[index + 1..]
  {
    if index < 0 || index >= src.actualSize then Step(InvalidArgument, src)
    else
      var e := src.elements;
      var n := src.actualSize;
      var shifted := e[..index] + e[index + 1..n] + [e[n - 1]] + e[n..];
      assert shifted[..n - 1] == e[..n][..index] + e[..n][index + 1..];
      Step(Success, ArrayList(src.maxSize, n - 1, shifted))
  }

  /** `spArrayListRemoveFirst`. */
  function RemoveFirst(src: ArrayList): (r: Step)
    requires Valid(src)
    ensures Valid(r.list) && r.list.maxSize == src.maxSize
    ensures src.actualSize == 0 ==> r == Step(InvalidArgument, src)
    ensures src.actualSize > 0 ==> r.msg == Success && Items(r.list) == Items(src)[1..]
  {
    RemoveAt(src, 0)
  }

  /** `spArrayListRemoveLast`. */
  function RemoveLast(src: ArrayList): (r: Step)
    requires Valid(src)
    ensures Valid(r.list) && r.list.maxSize == src.maxSize
    ensures src.actualSize == 0 ==> r == Step(InvalidArgument, src)
    ensures src.actualSize > 0 ==>
              r.msg == Success && Items(r.list) == Items(src)[..src.actualSize - 1]
  {
    RemoveAt(src, src.actualSize - 1)
  }

  /**
   * `spArrayListGetAt`. The index test admits `index == actualSize`, which
   * reads the first unused slot; when the list is full that slot lies past
   * the allocated buffer, shown here as `None`.
   */
  function GetAt(src: ArrayList, index: int): (r: Option<Node>)
    requires Valid(src)
    ensures (index < 0 || index > src.actualSize) ==> r == Some(Sentinel)
    ensures 0 <= index < src.actualSize ==> r == Some(Items(src)[index])
    ensures index == src.actualSize < src.maxSize ==> r == Some(src.elements[index])
    ensures r.None? <==> index == src.actualSize == src.maxSize
  {
    if index < 0 || index > src.actualSize then Some(Sentinel)
    else if index < src.maxSize then Some(src.elements[index])
    else None
  }

  /** `spArrayListGetFirst`. */
  function GetFirst(src: ArrayList): (r: Node)
    requires Valid(src)
    ensures src.actualSize == 0 ==> r == Sentinel
    ensures src.actualSize > 0 ==> r == Items(src)[0]
  {
    if src.actualSize == 0 then Sentinel else GetAt(src, 0).value
  }

  /** `spArrayListGetLast`. */
  function GetLast(src: ArrayList): (r: Node)
    requires Valid(src)
    ensures src.actualSize == 0 ==> r == Sentinel
    ensures src.actualSize > 0 ==> r == Items(src)[src.actualSize - 1]
  {
    if src.actualSize == 0 then Sentinel else GetAt(src, src.actualSize - 1).value
  }

  /** `spArrayListSize`. */
  function Size(src: ArrayList): (r: int)
    requires Valid(src)
    ensures r == |Items(src)| && 0 <= r <= src.maxSize
  {
    src.actualSize
  }

  /** `spArrayListMaxCapacity`. */
  function MaxCapacity(src: ArrayList): (r: int)
    requires Valid(src)
    ensures r == src.maxSize && r > 0 && |Items(src)| <= r
  {
    src.maxSize
  }

  /** `spArrayListIsFull`. */
  predicate IsFull(src: ArrayList)
    requires Valid(src)
    ensures IsFull(src) <==> |Items(src)| == src.maxSize
  {
    src.actualSize == src.maxSize
  }

  /** `spArrayListIsEmpty`. */
  predicate IsEmpty(src: ArrayList)
    requires Valid(src)
    ensures IsEmpty(src) <==> Items(src) == []
  {
    src.actualSize == 0
  }

  /** A store that agrees slot by slot with the shifted-right layout is that layout. */
  lemma InsertedStore(e: seq<Node>, s: seq<Node>, index: int, n: int, elem: Node)
    requires 0 <= index <= n < |e| == |s|
    requires forall k | 0 <= k < index :: s[k] == e[k]
    requires s[index] == elem
    requires forall k | index < k <= n :: s[k] == e[k - 1]
    requires forall k | n < k < |e| :: s[k] == e[k]
    ensures s == e[..index] + [elem] + e[index..n] + e[n + 1..]
  {
    var t := e[..index] + [elem] + e[index..n] + e[n + 1..];
    assert |t| == |s|;
    forall k | 0 <= k < |s| ensures s[k] == t[k] {
      if k < index {
      } else if k == index {
      } else if k <= n {
        assert t[k] == e[index..n][k - index - 1];
      } else {
        assert t[k] == e[n + 1..][k - n - 1];
      }
    }
  }

  /** A store that agrees slot by slot with the shifted-left layout is that layout. */
  lemma RemovedStore(e: seq<Node>, s: seq<Node>, index: int, n: int)
    requires 0 <= index < n <= |e| == |s|
    requires forall k | 0 <= k < index :: s[k] == e[k]
    requires forall k | index <= k < n - 1 :: s[k] == e[k + 1]
    requires forall k | n - 1 <= k < |e| :: s[k] == e[k]
    ensures s == e[..index] + e[index + 1..n] + [e[n - 1]] + e[n..]
  {
    var t := e[..index] + e[index + 1..n] + [e[n - 1]] + e[n..];
    assert |t| == |s|;
    forall k | 0 <= k < |s| ensures s[k] == t[k] {
      if k < index {
      } else if k < n - 1 {
        assert t[k] == e[index + 1..n][k - index];
      } else if k == n - 1 {
      } else {
        assert t[k] == e[n..][k - n];
      }
    }
  }

  /**
   * The insert loop as the source runs it, on a private array: walk `i`
   * down from the last live slot to `index`, copying each record one slot
   * right, then store the new element.
   */
  method ShiftRight(e: seq<Node>, index: int, n: int, elem: Node) returns (s: seq<Node>)
    requires 0 <= index <= n < |e|
    ensures s == e[..index] + [elem] + e[index..n] + e[n + 1..]
  {
    var a := new Node[|e|](k requires 0 <= k < |e| => e[k]);
    var i := n - 1;
    while i > index - 1
      invariant index - 1 <= i <= n - 1
      invariant forall k | 0 <= k <= i :: a[k] == e[k]
      invariant forall k | i + 1 < k <= n :: a[k] == e[k - 1]
      invariant forall k | n < k < |e| :: a[k] == e[k]
      decreases i
    {
      a[i + 1] := a[i];
      i := i - 1;
    }
    a[index] := elem;
    s := a[..];
    InsertedStore(e, s, index, n, elem);
  }

  /** `spArrayListAddAt` with the shifting loop. Agrees with `AddAt`. */
  method ShiftingAddAt(src: ArrayList, elem: Node, index: int) returns (r: Step)
    requires Valid(src)
    ensures r == AddAt(src, elem, index)
  {
    if index < 0 || index > src.actualSize {
      return Step(InvalidArgument, src);
    }
    if src.actualSize == src.maxSize {
      return Step(Full, src);
    }
    var s := ShiftRight(src.elements, index, src.actualSize, elem);
    r := Step(Success, ArrayList(src.maxSize, src.actualSize + 1, s));
  }

  /**
   * The remove loop as the source runs it: walk `i` up from `index + 1`,
   * copying each record one slot left.
   */
  method ShiftLeft(e: seq<Node>, index: int, n: int) returns (s: seq<Node>)
    requires 0 <= index < n <= |e|
    ensures s == e[..index] + e[index + 1..n] + [e[n - 1]] + e[n..]
  {
    var a := new Node[|e|](k requires 0 <= k < |e| => e[k]);
    var i := index + 1;
    while i < n
      invariant index + 1 <= i <= n
      invariant forall k | 0 <= k < index :: a[k] == e[k]
      invariant forall k | index <= k < i - 1 :: a[k] == e[k + 1]
      invariant forall k | i - 1 <= k < |e| :: a[k] == e[k]
    {
      a[i - 1] := a[i];
      i := i + 1;
    }
    s := a[..];
    RemovedStore(e, s, index, n);
  }

  /** `spArrayListRemoveAt` with the shifting loop. Agrees with `RemoveAt`. */
  method ShiftingRemoveAt(src: ArrayList, index: int) returns (r: Step)
    requires Valid(src)
    ensures r == RemoveAt(src, index)
  {
    if index < 0 || index >= src.actualSize {
      return Step(InvalidArgument, src);
    }
    var s := ShiftLeft(src.elements, index, src.actualSize);
    r := Step(Success, ArrayList(src.maxSize, src.actualSize - 1, s));
  }
}
