/**
 * The members of GRUB's `grub_err_t` that the modelled code returns.
 * `ErrNone` is GRUB_ERR_NONE, the 0 returned on success.
 */
module GrubError {
  datatype Err =
    | ErrNone           // GRUB_ERR_NONE
    | ErrOutOfMemory    // GRUB_ERR_OUT_OF_MEMORY
    | ErrFileNotFound   // GRUB_ERR_FILE_NOT_FOUND
    | ErrUnknownDevice  // GRUB_ERR_UNKNOWN_DEVICE
    | ErrBadDevice      // GRUB_ERR_BAD_DEVICE
    | ErrBadArgument    // GRUB_ERR_BAD_ARGUMENT
    | ErrIo             // GRUB_ERR_IO
}
