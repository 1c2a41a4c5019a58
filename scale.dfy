/**
 * The decision inside f_get_pixbuf_at_scale: from the probed width and height
 * of an image, which GdkPixbuf loading call is made. Decoding and resampling
 * are GdkPixbuf's work; only the requested arguments are modelled.
 */
module Scale {

  datatype PixbufLoad =
      /** gdk_pixbuf_new_from_file_at_scale(path, width, height, preserveAspect);
          -1 leaves that dimension free. */
    | AtScale(width: int, height: int, preserveAspect: bool)
      /** gdk_pixbuf_new_from_file(path): native size. */
    | FromFile
      /** no call: NULL is returned. */
    | NoPixbuf

  /**
   * f_get_pixbuf_at_scale: an image larger than 300 on either side is
   * requested at `scale` along its longer side (the width on a tie) with the
   * other side free and the aspect ratio kept; an image that fits is loaded at
   * its own size; a non-positive probed size gives no image.
   */
  function PixbufRequest(width: int, height: int, scale: int): (r: PixbufLoad)
    ensures r.AtScale? <==> width > 300 || height > 300
    ensures r.AtScale? ==> r.preserveAspect
    ensures r.AtScale? && width >= height ==> r.width == scale && r.height == -1
    ensures r.AtScale? && width < height ==> r.width == -1 && r.height == scale
    ensures r.FromFile? <==> 0 < width <= 300 && 0 < height <= 300
    ensures r.NoPixbuf? <==> width <= 300 && height <= 300 && (width <= 0 || height <= 0)
  {
    if width > 300 || height > 300 then
      if width - height >= 0 then AtScale(scale, -1, true)
      else if width - height < 0 then AtScale(-1, scale, true)
      else assert false; NoPixbuf
    else if width > 0 && height > 0 then FromFile
    else NoPixbuf
  }

  /**
   * At the two call sites (main and callback_open) the scale is 300, the same
   * as the threshold: a scaled request always asks for strictly less than the
   * native size of the side it constrains, so no image is ever enlarged.
   */
  lemma CallSitesNeverEnlarge(width: int, height: int)
    ensures match PixbufRequest(width, height, 300)
      case AtScale(w, h, _) => (w == 300 && w < width) || (h == 300 && h < height)
      case FromFile => width <= 300 && height <= 300
      case NoPixbuf => true
  {
  }
}
