/**
 * The GEM/AES object records the Atari toolbar lays out.
 *
 * An AES object tree is an array of OBJECT records whose geometry fields are
 * 16-bit signed words; C computes in `int` and truncates when it stores back,
 * so every store goes through Wrap16.  The tree's sibling/child links are
 * abstracted as a parent index that always precedes its child.
 */
module AtariAes {

  /** A 16-bit signed AES word (WORD / short). */
  type Short = x: int | -0x8000 <= x < 0x8000

  /** Storing an `int` into a 16-bit `short`: two's-complement truncation. */
  function Wrap16(v: int): (r: Short)
    ensures (r - v) % 0x10000 == 0
    ensures -0x8000 <= v < 0x8000 ==> r == v
  {
    (v + 0x8000) % 0x10000 - 0x8000
  }

  /** The C `>> 1` of a (possibly negative) `int`: an arithmetic shift, i.e. floor division by two. */
  function Half(v: int): (r: int)
    ensures 2 * r == v || 2 * r == v - 1
  {
    v / 2
  }

  /** A GEM rectangle (GRECT). */
  datatype Grect = Grect(x: Short, y: Short, w: Short, h: Short)

  /** One AES OBJECT record: position, size and the ob_state flag word. */
  datatype AesObject = AesObject(parent: int, x: Short, y: Short, width: Short, height: Short, state: bv16)

  /** The ob_state flag that greys an object out. */
  const OS_DISABLED: bv16 := 0x0008

  /** ob_state with OS_DISABLED set when `disabled`, cleared otherwise; every other flag is kept. */
  function WithDisabled(state: bv16, disabled: bool): (r: bv16)
    ensures (r & OS_DISABLED != 0) <==> disabled
    ensures r & !OS_DISABLED == state & !OS_DISABLED
  {
    if disabled then state | OS_DISABLED else state & !OS_DISABLED
  }

  /** Every object's parent comes before it; the root (index 0) has none. */
  ghost predicate WellFormed(tree: seq<AesObject>)
  {
    |tree| > 0 && tree[0].parent < 0 &&
    forall i :: 0 <= i < |tree| ==> tree[i].parent < i
  }

  /**
   * objc_offset: the absolute position of object `i`, the sum of its own and
   * all its ancestors' ob_x/ob_y, stored back into 16-bit words.
   */
  function ObjcOffset(tree: seq<AesObject>, i: int): (Short, Short)
    requires WellFormed(tree) && 0 <= i < |tree|
    decreases i
  {
    var o := tree[i];
    if o.parent < 0 then (o.x, o.y)
    else
      var p := ObjcOffset(tree, o.parent);
      (Wrap16(p.0 + o.x), Wrap16(p.1 + o.y))
  }

  /** The rectangle toolbar_get_grect reports for object `which`. */
  function ObjectRect(tree: seq<AesObject>, which: int): Grect
    requires WellFormed(tree) && 0 <= which < |tree|
  {
    var (x, y) := ObjcOffset(tree, which);
    Grect(x, y, tree[which].width, tree[which].height)
  }
}
