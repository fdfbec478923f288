/**
 * The image slider (src/components/ImageSlider.tsx): the index of the image
 * shown among `n` images, moved by the arrows (and by the auto-play timer,
 * which calls the same `goToNext`), and what the component renders.
 */
module ImageSlider {
  import opened Common

  /** `goToNext`: the last image wraps to the first. */
  function Next(i: int, n: int): int
  {
    if i == n - 1 then 0 else i + 1
  }

  /** `goToPrevious`: the first image wraps to the last. */
  function Previous(i: int, n: int): int
  {
    if i == 0 then n - 1 else i - 1
  }

  /** `goToSlide(index)`; the dots that would call it are commented out in the markup. */
  function GoToSlide(index: int): int { index }

  /** On an index in range, `goToNext` is addition modulo `n` and `goToPrevious` subtraction modulo `n`. */
  lemma NextPreviousModular(i: int, n: int)
    requires 0 <= i < n
    ensures Next(i, n) == (i + 1) % n
    ensures Previous(i, n) == (i - 1 + n) % n
  {
  }

  /** Both arrows keep the index in [0, n). */
  lemma StaysInRange(i: int, n: int)
    requires 0 <= i < n
    ensures 0 <= Next(i, n) < n && 0 <= Previous(i, n) < n
  {
  }

  /** Each arrow undoes the other. */
  lemma NextPreviousInverse(i: int, n: int)
    requires 0 <= i < n
    ensures Previous(Next(i, n), n) == i
    ensures Next(Previous(i, n), n) == i
  {
  }

  /** `k` presses of the right arrow. */
  function NextTimes(i: int, n: int, k: nat): int
  {
    if k == 0 then i else Next(NextTimes(i, n, k - 1), n)
  }

  /** Pressing `a` times and then `b` times is pressing `a + b` times. */
  lemma {:induction false} NextTimesAdd(i: int, n: int, a: nat, b: nat)
    ensures NextTimes(i, n, a + b) == NextTimes(NextTimes(i, n, a), n, b)
  {
    if b > 0 {
      NextTimesAdd(i, n, a, b - 1);
    }
  }

  /** Without reaching the last image, `k` presses move `k` images on. */
  lemma {:induction false} NextTimesCount(i: int, n: int, k: nat)
    requires 0 <= i && i + k < n
    ensures NextTimes(i, n, k) == i + k
  {
    if k > 0 {
      NextTimesCount(i, n, k - 1);
    }
  }

  /** `n` presses of the right arrow come back to the starting image. */
  lemma FullCircle(i: int, n: int)
    requires 0 <= i < n
    ensures NextTimes(i, n, n) == i
  {
    NextTimesCount(i, n, n - i - 1);
    assert NextTimes(i, n, n - i) == 0;
    NextTimesCount(0, n, i);
    NextTimesAdd(i, n, n - i, i);
  }

  /** What the component renders. */
  datatype View =
    | Nothing
    | SingleImage(src: string)
    | Slider(src: string, altText: string, counter: string)

  /** `${alt} - ${currentIndex + 1}` */
  function SlideAlt(alt: string, index: nat): string
  {
    alt + " - " + DecStr(index + 1)
  }

  /** `{currentIndex + 1} / {images.length}` */
  function Counter(index: nat, n: nat): string
  {
    DecStr(index + 1) + " / " + DecStr(n)
  }

  /** No images render nothing, one image renders without arrows, more render the current one with arrows and counter. */
  function Render(images: seq<string>, alt: string, index: nat): (r: View)
    requires |images| >= 2 ==> index < |images|
    ensures images == [] <==> r.Nothing?
    ensures |images| == 1 <==> r.SingleImage?
    ensures r.SingleImage? ==> r.src == images[0]
    ensures r.Slider? ==> |images| >= 2 && r.src == images[index]
  {
    if |images| == 0 then Nothing
    else if |images| == 1 then SingleImage(images[0])
    else Slider(images[index], SlideAlt(alt, index), Counter(index, |images|))
  }

  /** The counter of a slide names its position counted from one, then the number of images. */
  lemma CounterShape(index: nat, n: nat)
    ensures var c := Counter(index, n);
      exists a: string, b: string {:trigger a + " / " + b} ::
        c == a + " / " + b && AllDigits(a) && DecValue(a) == index + 1 && AllDigits(b) && DecValue(b) == n
  {
    var a, b := DecStr(index + 1), DecStr(n);
    assert Counter(index, n) == a + " / " + b;
  }

  /** The alternative text of a slide is the given text, " - ", then the position counted from one. */
  lemma SlideAltShape(alt: string, index: nat)
    ensures var t := SlideAlt(alt, index);
      exists a: string {:trigger alt + " - " + a} ::
        t == alt + " - " + a && AllDigits(a) && DecValue(a) == index + 1
  {
    var a := DecStr(index + 1);
    assert SlideAlt(alt, index) == alt + " - " + a;
  }
}
