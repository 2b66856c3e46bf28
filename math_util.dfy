/** util/math: only `Clamp` is used by the editor. Its body is not part of
    this model; it is taken to return `lo` below the range, `hi` above it and
    the value itself inside it. */
module MathUtil {

  function Clamp(v: int, lo: int, hi: int): (r: int)
    ensures lo <= hi ==> lo <= r <= hi
    ensures lo <= v <= hi ==> r == v
    ensures v < lo ==> r == lo
    ensures lo <= v && hi < v ==> r == hi
  {
    if v < lo then lo else if v > hi then hi else v
  }
}
