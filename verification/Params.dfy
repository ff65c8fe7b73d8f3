/** Constants of kernel/param.h, kernel/fs.h and kernel/virtio.h. */
module Params {
  const NPROC := 64
  const MAXOPBLOCKS := 10
  const LOGSIZE := MAXOPBLOCKS * 3
  const NBUF := MAXOPBLOCKS * 3
  const ROOTDEV := 1

  const BSIZE := 1024
  const NDIRECT := 12
  const NINDIRECT := BSIZE / 4
  const MAXFILE := NDIRECT + NINDIRECT
  const BPB := BSIZE * 8

  const UINT_LIMIT := 0x1_0000_0000
  const INT_MAX := 0x7fff_ffff
}
