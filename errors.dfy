/** The exceptions that end a run of the script. */
module Errors {

  datatype Error =
    /** `Image.open` could not read or recognise the file. */
    | CannotOpen(filename: string)
    /** Python's `int()` was given a string that is not an integer literal (a `ValueError`). */
    | InvalidLiteral(text: string)
    /** `new_image` was used before any assignment (an `UnboundLocalError`): `--scale` was empty. */
    | UnboundNewImage
}
