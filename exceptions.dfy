/** How the model stands in for Python's exceptions: an operation of main.py
    that can raise returns a `Result`, and the exception kinds are only those
    the source can actually produce on the modelled paths. */
module Exceptions {

  /** The exceptions that can leave a modelled operation.
      - ZeroDivisionError: `crop_image` divides the window width by an image
        width of 0 (main.py:254), which is what a null QImage has.
      - RuntimeError: `display_image` hands its document to a text edit
        whose C++ object Qt has already deleted (main.py:265).
      - RemoteFailure: anything raised in the fallback branch of
        `generate_image` (main.py:224-237): by `requests.get`, by reading
        the streamed body, by `PIL.Image.open`, or by the canvas calls that
        read and draw the image. The source does not tell a network error
        from an undecodable body, and neither does the model. */
  datatype PyError = ZeroDivisionError | RuntimeError | RemoteFailure

  datatype Result<T> = Ok(value: T) | Raise(error: PyError)

  datatype Option<T> = None | Some(value: T)
}
