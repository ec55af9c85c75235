/** The result checks of the comparison programs: element-wise equality of the naive and the
    tiled outputs, returned as the C int flag (1 for equal, 0 otherwise). */
module Compare {

  /** arrays_equal: 1 exactly when the first size elements of a and b agree. */
  method ArraysEqual(a: array<int>, b: array<int>, size: int) returns (r: int)
    requires size <= a.Length && size <= b.Length
    ensures r == 0 || r == 1
    ensures r == 1 <==> forall i :: 0 <= i < size ==> a[i] == b[i]
  {
    var i := 0;
    while i < size
      invariant 0 <= i && (i <= size || i == 0)
      invariant forall j :: 0 <= j < i ==> a[j] == b[j]
    {
      if a[i] != b[i] {
        return 0;
      }
      i := i + 1;
    }
    return 1;
  }

  /** arrays_2d_equal: 1 exactly when the first height rows and width columns agree. */
  method Arrays2DEqual(a: array2<int>, b: array2<int>, height: int, width: int) returns (r: int)
    requires height <= a.Length0 && height <= b.Length0
    requires width <= a.Length1 && width <= b.Length1
    ensures r == 0 || r == 1
    ensures r == 1 <==> forall i, j :: 0 <= i < height && 0 <= j < width ==> a[i, j] == b[i, j]
  {
    var i := 0;
    while i < height
      invariant 0 <= i && (i <= height || i == 0)
      invariant forall i', j :: 0 <= i' < i && 0 <= j < width ==> a[i', j] == b[i', j]
    {
      var j := 0;
      while j < width
        invariant 0 <= j && (j <= width || j == 0)
        invariant forall j' :: 0 <= j' < j ==> a[i, j'] == b[i, j']
      {
        if a[i, j] != b[i, j] {
          return 0;
        }
        j := j + 1;
      }
      i := i + 1;
    }
    return 1;
  }
}
