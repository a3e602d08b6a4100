/** The x86-64 system call numbers of the base policy's two lists. */
module Syscalls {
  /** What every zone may call. */
  predicate IsBase(nr: int) {
    nr in {
      // file I/O
      0, 1, 19, 20, 17, 18, 295, 296, 2, 257, 3, 8, 4, 5, 6, 262, 332, 21, 269, 439, 217, 89, 267,
      72, 16, 32, 33, 292, 22, 293, 74, 75, 77, 76, 79, 80, 81, 82, 264, 316, 83, 258, 84, 87, 263,
      88, 266, 86, 265, 95, 73, 285, 85, 437, 436, 133, 259, 90, 91, 268, 452, 92, 93, 94, 260,
      326, 40, 275, 221, 187, 280, 261, 162, 306, 191, 192, 193, 194, 195, 196, 188, 189, 190, 197,
      198, 199,
      // memory
      9, 11, 25, 12, 28, 149, 150, 319, 26, 10,
      // process and thread lifecycle
      56, 435, 57, 58, 59, 322, 60, 231, 61, 247, 434, 424, 39, 110, 186, 102, 107, 104, 108, 115,
      111, 121, 109, 124, 112, 98, 97, 302, 24, 204, 203, 309, 125, 218, 273, 274, 202, 158, 324,
      140, 141, 143, 145, 146, 147, 315, 252, 118, 120,
      // signals
      13, 14, 15, 127, 130, 128, 131, 62, 234, 200, 219,
      // time
      228, 229, 230, 96, 35, 100, 37, 38, 36, 34, 222, 223, 224, 225, 226,
      // polling
      7, 271, 23, 270, 213, 291, 233, 232, 281, 441, 284, 290, 282, 289, 283, 286, 287, 254, 255,
      // sockets
      41, 53, 49, 50, 43, 288, 42, 48, 51, 52, 54, 55, 44, 45, 46, 47, 307, 299,
      // the rest
      63, 99, 318, 157, 334, 137, 138, 453
    }
  }

  /** Whether a call is on the denied list, which no zone policy can allow from. */
  predicate IsDenied(nr: int) {
    nr in {
      101, 310, 311, 165, 166, 155, 161, 272, 308, 321, 298, 323, 250, 248, 249, 175, 313, 176,
      246, 169, 167, 168, 105, 106, 173, 172, 179, 304, 303, 430, 431, 432, 433, 429, 428, 442,
      425, 426, 427, 438, 312, 170, 171, 116, 117, 119, 113, 114, 122, 123, 126, 135
    }
  }

  /** `base` is the base allowlist, written in whatever order: no decision depends on it. */
  ghost predicate IsBaseList(base: seq<int>) {
    forall x :: x in base <==> IsBase(x)
  }

  /** The base calls below `n`, in ascending order. */
  function BaseBelow(n: nat): seq<int> {
    if n == 0 then [] else BaseBelow(n - 1) + (if IsBase(n - 1) then [n - 1] else [])
  }

  lemma {:induction false} BaseBelowHas(n: nat, x: int)
    ensures x in BaseBelow(n) <==> 0 <= x < n && IsBase(x)
  {
    hide IsBase;
    if n > 0 { BaseBelowHas(n - 1, x); }
  }

  /** There is such a list. */
  lemma BaseBelowIsTheList()
    ensures IsBaseList(BaseBelow(454))
  {
    hide IsBase, BaseBelow;
    forall x ensures x in BaseBelow(454) <==> IsBase(x) {
      BaseBelowHas(454, x);
      BaseNumbersAreSmall(x);
    }
  }

  lemma BaseNumbersAreSmall(x: int)
    ensures IsBase(x) ==> 0 <= x < 454
  {}

  /** The two lists have no call in common. */
  lemma BaseCallsAreNotDenied(nr: int)
    requires IsBase(nr)
    ensures !IsDenied(nr)
  {}

  const SYS_CLONE := 56
  const SYS_CLONE3 := 435
  const SYS_IOCTL := 16
  const SYS_SOCKET := 41
  const SYS_SOCKETPAIR := 53
  const SYS_SETUID := 105
  const SYS_SETGID := 106
  const SYS_SETGROUPS := 116
  const SYS_CAPSET := 126
  const SYS_CHROOT := 161
}
