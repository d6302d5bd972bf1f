/** The bladeRF protocol constants: control-request codes, the three NIOS
    peripheral frame shapes (magic byte and field offsets), targets, RFIC
    commands and channels, FIR and gain-mode codes. */
module Constants {
  import opened JavaTypes

  const INTERFACE_NULL: int := 0
  const INTERFACE_RF_LINK: int := 1

  // Vendor control requests.
  const USB_CMD_QUERY_VERSION: int := 0
  const USB_CMD_QUERY_FPGA_STATUS: int := 1
  const USB_CMD_RF_RX: int := 4
  const USB_CMD_RF_TX: int := 5
  const USB_CMD_QUERY_DEVICE_READY: int := 6
  const USB_CMD_RESET: int := 105

  /** Every peripheral frame is 16 bytes long. */
  const NIOS_PKT_LEN: int := 16

  // 8-bit address, 16-bit data.
  const NIOS_PKT_8x16_MAGIC: int := 'B' as int
  const NIOS_PKT_8x16_IDX_MAGIC: int := 0
  const NIOS_PKT_8x16_IDX_TARGET_ID: int := 1
  const NIOS_PKT_8x16_IDX_FLAGS: int := 2
  const NIOS_PKT_8x16_IDX_RESV1: int := 3
  const NIOS_PKT_8x16_IDX_ADDR: int := 4
  const NIOS_PKT_8x16_IDX_DATA: int := 5
  const NIOS_PKT_8x16_IDX_RESV2: int := 7

  const NIOS_PKT_8x16_TARGET_VCTCXO_DAC: i8 := 0
  const NIOS_PKT_8x16_TARGET_IQ_CORR: i8 := 1
  const NIOS_PKT_8x16_TARGET_AGC_CORR: i8 := 2
  const NIOS_PKT_8x16_TARGET_AD56X1_DAC: i8 := 3
  const NIOS_PKT_8x16_TARGET_INA219: i8 := 4

  // 8-bit address, 32-bit data.
  const NIOS_PKT_8x32_MAGIC: int := 'C' as int
  const NIOS_PKT_8x32_IDX_MAGIC: int := 0
  const NIOS_PKT_8x32_IDX_TARGET_ID: int := 1
  const NIOS_PKT_8x32_IDX_FLAGS: int := 2
  const NIOS_PKT_8x32_IDX_RESV1: int := 3
  const NIOS_PKT_8x32_IDX_ADDR: int := 4
  const NIOS_PKT_8x32_IDX_DATA: int := 5
  const NIOS_PKT_8x32_IDX_RESV2: int := 9

  const NIOS_PKT_8x32_TARGET_VERSION: i8 := 0
  const NIOS_PKT_8x32_TARGET_CONTROL: i8 := 1
  const NIOS_PKT_8x32_TARGET_ADF4351: i8 := 2
  const NIOS_PKT_8x32_TARGET_RFFE_CSR: i8 := 3
  const NIOS_PKT_8x32_TARGET_ADF400X: i8 := 4
  const NIOS_PKT_8x32_TARGET_FASTLOCK: i8 := 5

  // 16-bit address (command and channel), 64-bit data.
  const NIOS_PKT_16x64_MAGIC: int := 'E' as int
  const NIOS_PKT_16x64_IDX_MAGIC: int := 0
  const NIOS_PKT_16x64_IDX_TARGET_ID: int := 1
  const NIOS_PKT_16x64_IDX_FLAGS: int := 2
  const NIOS_PKT_16x64_IDX_RESV1: int := 3
  const NIOS_PKT_16x64_IDX_ADDR: int := 4
  const NIOS_PKT_16x64_IDX_DATA: int := 6
  const NIOS_PKT_16x64_IDX_RESV2: int := 14

  const NIOS_PKT_16x64_TARGET_AD9361: i8 := 0
  const NIOS_PKT_16x64_TARGET_RFIC: i8 := 1

  const INA219_REG_CONFIGURATION: i8 := 0
  const INA219_REG_SHUNT_VOLTAGE: i8 := 1
  const INA219_REG_BUS_VOLTAGE: i8 := 2
  const INA219_REG_POWER: i8 := 3
  const INA219_REG_CURRENT: i8 := 4
  const INA219_REG_CALIBRATION: i8 := 5

  const PLL_VCTCXO_FREQUENCY: int := 38400000
  const PLL_REFIN_DEFAULT: int := 10000000
  const PLL_RESET_FREQUENCY: int := 70000000

  const CHANNEL_RX0: i8 := 0
  const CHANNEL_TX0: i8 := 1
  const CHANNEL_RX1: i8 := 2
  const CHANNEL_TX1: i8 := 3
  const CHANNEL_INVALID: i8 := -1

  const RFIC_CMD_STATUS: i8 := 0
  const RFIC_CMD_INIT: i8 := 1
  const RFIC_CMD_ENABLE: i8 := 2
  const RFIC_CMD_SAMPLERATE: i8 := 3
  const RFIC_CMD_FREQUENCY: i8 := 4
  const RFIC_CMD_BANDWIDTH: i8 := 5
  const RFIC_CMD_GAINMODE: i8 := 6
  const RFIC_CMD_GAIN: i8 := 7
  const RFIC_CMD_RSSI: i8 := 8
  const RFIC_CMD_FILTER: i8 := 9
  const RFIC_CMD_TXMUTE: i8 := 10

  const RFIC_STATE_OFF: int := 0
  const RFIC_STATE_ON: int := 1
  const RFIC_STATE_STANDBY: int := 2

  const RFIC_RXFIR_BYPASS: int := 0
  const RFIC_RXFIR_CUSTOM: int := 1
  const RFIC_RXFIR_DEC1: int := 2
  const RFIC_RXFIR_DEC2: int := 3
  const RFIC_RXFIR_DEC4: int := 4

  const RFIC_TXFIR_BYPASS: int := 0
  const RFIC_TXFIR_CUSTOM: int := 1
  const RFIC_TXFIR_INT1: int := 2
  const RFIC_TXFIR_INT2: int := 3
  const RFIC_TXFIR_INT4: int := 4

  const GAIN_DEFAULT: int := 0
  const GAIN_MGC: int := 1
  const GAIN_FASTATTACK_AGC: int := 2
  const GAIN_SLOWATTACK_AGC: int := 3
  const GAIN_HYBRID_AGC: int := 4

  /** The three frame shapes are told apart by their first byte. */
  lemma MagicBytesDistinct()
    ensures NIOS_PKT_8x16_IDX_MAGIC == NIOS_PKT_8x32_IDX_MAGIC == NIOS_PKT_16x64_IDX_MAGIC == 0
    ensures NIOS_PKT_8x16_MAGIC != NIOS_PKT_8x32_MAGIC
    ensures NIOS_PKT_8x32_MAGIC != NIOS_PKT_16x64_MAGIC
    ensures NIOS_PKT_8x16_MAGIC != NIOS_PKT_16x64_MAGIC
  {
  }

  /** In every shape the fields follow one another without overlap, the
      data field ends exactly where the second reserved field begins, and
      everything fits in a 16-byte frame. */
  lemma FieldLayouts()
    ensures NIOS_PKT_8x16_IDX_MAGIC < NIOS_PKT_8x16_IDX_TARGET_ID < NIOS_PKT_8x16_IDX_FLAGS
              < NIOS_PKT_8x16_IDX_RESV1 < NIOS_PKT_8x16_IDX_ADDR < NIOS_PKT_8x16_IDX_DATA
    ensures NIOS_PKT_8x16_IDX_DATA + 2 == NIOS_PKT_8x16_IDX_RESV2 < NIOS_PKT_LEN
    ensures NIOS_PKT_8x32_IDX_MAGIC < NIOS_PKT_8x32_IDX_TARGET_ID < NIOS_PKT_8x32_IDX_FLAGS
              < NIOS_PKT_8x32_IDX_RESV1 < NIOS_PKT_8x32_IDX_ADDR < NIOS_PKT_8x32_IDX_DATA
    ensures NIOS_PKT_8x32_IDX_DATA + 4 == NIOS_PKT_8x32_IDX_RESV2 < NIOS_PKT_LEN
    ensures NIOS_PKT_16x64_IDX_MAGIC < NIOS_PKT_16x64_IDX_TARGET_ID < NIOS_PKT_16x64_IDX_FLAGS
              < NIOS_PKT_16x64_IDX_RESV1 < NIOS_PKT_16x64_IDX_ADDR
    ensures NIOS_PKT_16x64_IDX_ADDR + 2 == NIOS_PKT_16x64_IDX_DATA
    ensures NIOS_PKT_16x64_IDX_DATA + 8 == NIOS_PKT_16x64_IDX_RESV2
    ensures NIOS_PKT_16x64_IDX_RESV2 + 2 == NIOS_PKT_LEN
  {
  }

  /** The channel-agnostic sentinel is none of the four real channels. */
  lemma ChannelInvalidIsNoChannel()
    ensures CHANNEL_INVALID !in {CHANNEL_RX0, CHANNEL_TX0, CHANNEL_RX1, CHANNEL_TX1}
    ensures CHANNEL_INVALID < 0
  {
  }

  /** Decimation on receive and interpolation on transmit share the codes
      for the same factor. */
  lemma FirCodesAgree()
    ensures RFIC_RXFIR_DEC1 == RFIC_TXFIR_INT1 == 2
    ensures RFIC_RXFIR_DEC2 == RFIC_TXFIR_INT2 == 3
    ensures RFIC_RXFIR_DEC4 == RFIC_TXFIR_INT4 == 4
  {
  }

  /** The five gain-mode codes are pairwise distinct. */
  lemma GainModesDistinct()
    ensures |{GAIN_DEFAULT, GAIN_MGC, GAIN_FASTATTACK_AGC, GAIN_SLOWATTACK_AGC, GAIN_HYBRID_AGC}| == 5
    ensures GAIN_MGC != GAIN_SLOWATTACK_AGC
  {
  }
}
