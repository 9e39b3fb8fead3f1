/** Texts as the program passes them to the operating system, which ends them with a NUL. */
module Texts {
  type Text = seq<char>

  const NUL: char := '\0'
}
