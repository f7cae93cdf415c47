/** Draws of a random generator: any value in the range.  What is proved holds for all of them. */
module Random {

  method RandInt(lo: int, hi: int) returns (n: int)
    requires lo <= hi
    ensures lo <= n <= hi
  {
    n := *;
    if !(lo <= n <= hi) {
      n := lo;
    }
  }

  method AtLeast(lo: real) returns (x: real)
    ensures x >= lo
  {
    x := *;
    if x < lo {
      x := lo;
    }
  }

  method AtLeastInt(lo: int) returns (n: int)
    ensures n >= lo
  {
    n := *;
    if n < lo {
      n := lo;
    }
  }
}
