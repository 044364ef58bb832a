/** The smaller and the larger of two. */
module Numbers {
  function Min(x: real, y: real): real {
    if x <= y then x else y
  }

  function Max(x: real, y: real): real {
    if x <= y then y else x
  }

  function Least(x: nat, y: nat): nat {
    if x <= y then x else y
  }
}
